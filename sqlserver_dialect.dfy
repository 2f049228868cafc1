/** The SQL Server dialect's bind-marker filter: the name a parameter is
    given turns into a marker suffix made only of the ASCII letters and
    digits of that name, in their order, behind an underscore, or into ""
    when the name has none. */
module SqlServerDialects {

  /** `Character.isLetterOrDigit(ch) && ch < 127`: below 127 the letters are
      exactly `A`-`Z` and `a`-`z`, and the digits exactly `0`-`9`. */
  predicate Kept(ch: char) {
    ('A' <= ch <= 'Z') || ('a' <= ch <= 'z') || ('0' <= ch <= '9')
  }

  /** The characters of `s` that the filter keeps, in order. */
  function Filtered(s: string): string {
    if |s| == 0 then ""
    else Filtered(s[..|s| - 1]) + (if Kept(s[|s| - 1]) then [s[|s| - 1]] else "")
  }

  /** The marker suffix for `s`. */
  function BindMarker(s: string): string {
    var kept := Filtered(s);
    if |kept| == 0 then "" else "_" + kept
  }

  /** `filterBindMarker`: one pass over the input, appending each kept
      character to a builder. */
  method FilterBindMarker(input: string) returns (r: string)
    ensures r == BindMarker(input)
  {
    var builder := "";
    for i := 0 to |input|
      invariant builder == Filtered(input[..i])
    {
      var ch := input[i];
      assert input[..i + 1][..i] == input[..i];
      if Kept(ch) {
        builder := builder + [ch];
      }
    }
    assert input[..|input|] == input;
    if |builder| == 0 {
      return "";
    }
    return "_" + builder;
  }

  // ------------------------------------------------------------ properties

  /** Filtering a concatenation filters each part: the kept characters stay
      in input order. */
  lemma {:induction false} FilteredAppend(a: string, b: string)
    ensures Filtered(a + b) == Filtered(a) + Filtered(b)
    decreases |b|
  {
    if |b| == 0 {
      assert a + b == a;
    } else {
      var c := b[|b| - 1];
      var init := b[..|b| - 1];
      assert (a + b)[..|a + b| - 1] == a + init;
      FilteredAppend(a, init);
    }
  }

  lemma FilteredOne(c: char)
    ensures Filtered([c]) == if Kept(c) then [c] else ""
  {
    assert [c][..0] == "";
  }

  /** Only kept characters come out. */
  lemma {:induction false} FilteredKept(s: string)
    ensures forall i | 0 <= i < |Filtered(s)| :: Kept(Filtered(s)[i])
    decreases |s|
  {
    if |s| > 0 {
      FilteredKept(s[..|s| - 1]);
    }
  }

  /** Every kept character of the input comes out as often as it occurs,
      and no other does. */
  lemma {:induction false} FilteredCounts(s: string)
    ensures forall c :: multiset(Filtered(s))[c] == if Kept(c) then multiset(s)[c] else 0
    decreases |s|
  {
    if |s| > 0 {
      var init := s[..|s| - 1];
      FilteredCounts(init);
      assert s == init + [s[|s| - 1]];
    }
  }

  /** A string of kept characters is its own filtering. */
  lemma {:induction false} FilteredKeeps(s: string)
    requires forall i | 0 <= i < |s| :: Kept(s[i])
    ensures Filtered(s) == s
    decreases |s|
  {
    if |s| > 0 {
      FilteredKeeps(s[..|s| - 1]);
      assert s[..|s| - 1] + [s[|s| - 1]] == s;
    }
  }

  /** Nothing is kept exactly when the input holds no ASCII letter or digit. */
  lemma {:induction false} FilteredEmpty(s: string)
    ensures |Filtered(s)| == 0 <==> forall i | 0 <= i < |s| :: !Kept(s[i])
    decreases |s|
  {
    if |s| > 0 {
      var init := s[..|s| - 1];
      FilteredEmpty(init);
      assert forall i | 0 <= i < |init| :: init[i] == s[i];
    }
  }

  /** The marker is "" or an underscore followed by kept characters only. */
  lemma BindMarkerShape(s: string)
    ensures var r := BindMarker(s);
      r == "" || (r[0] == '_' && |r| >= 2 && forall i | 1 <= i < |r| :: Kept(r[i]))
  {
    FilteredKept(s);
  }

  /** Empty or all-symbol input gives "", and any other gives an underscore
      and the kept characters. */
  lemma BindMarkerEmpty(s: string)
    ensures BindMarker(s) == "" <==> forall i | 0 <= i < |s| :: !Kept(s[i])
  {
    FilteredEmpty(s);
  }

  /** Filtering a marker again changes nothing. */
  lemma BindMarkerIdempotent(s: string)
    ensures BindMarker(BindMarker(s)) == BindMarker(s)
  {
    var kept := Filtered(s);
    if |kept| > 0 {
      FilteredKept(s);
      FilteredKeeps(kept);
      FilteredOne('_');
      FilteredAppend("_", kept);
      assert Filtered("_" + kept) == kept;
    }
  }
}
