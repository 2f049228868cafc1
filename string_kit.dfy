/** String helpers of the extension kit: blank checks, first-non-blank,
    padding and the snake_case / camelCase converters. Java `String`
    parameters that may be null are `Option<string>`; letters are ASCII. */
module StringKit {
  import opened Wrappers
  import opened JavaValues

  /** `Character.isWhitespace`: the Unicode space, line and paragraph
      separators other than the no-break spaces, plus U+0009..U+000D and
      U+001C..U+001F. */
  predicate IsWhitespace(c: char) {
    var n := c as int;
    (0x09 <= n <= 0x0D) || (0x1C <= n <= 0x20) || n == 0x1680
    || (0x2000 <= n <= 0x2006) || (0x2008 <= n <= 0x200A)
    || n == 0x2028 || n == 0x2029 || n == 0x205F || n == 0x3000
  }

  predicate IsUpper(c: char) { 'A' <= c <= 'Z' }

  predicate IsLower(c: char) { 'a' <= c <= 'z' }

  function ToUpper(c: char): (u: char)
    ensures !IsLower(u)
    ensures !IsLower(c) ==> u == c
  {
    if IsLower(c) then (c as int - 32) as char else c
  }

  function ToLower(c: char): (l: char)
    ensures !IsUpper(l)
    ensures !IsUpper(c) ==> l == c
  {
    if IsUpper(c) then (c as int + 32) as char else c
  }

  /** `String.toLowerCase`, restricted to ASCII letters. */
  function LowerString(s: string): (r: string)
    ensures |r| == |s|
    ensures forall i :: 0 <= i < |s| ==> r[i] == ToLower(s[i])
  {
    seq(|s|, i requires 0 <= i < |s| => ToLower(s[i]))
  }

  /** The index of the first non-whitespace character, or |s| if there is none
      (how `String.isBlank` scans); `IndexOfNonWhitespaceIsFirst` says so. */
  function IndexOfNonWhitespace(s: string): (k: nat)
    ensures k <= |s|
  {
    if |s| == 0 || !IsWhitespace(s[0]) then 0 else 1 + IndexOfNonWhitespace(s[1..])
  }

  lemma {:induction false} IndexOfNonWhitespaceIsFirst(s: string)
    ensures var k := IndexOfNonWhitespace(s);
      (forall i :: 0 <= i < k ==> IsWhitespace(s[i])) && (k < |s| ==> !IsWhitespace(s[k]))
  {
    if |s| > 0 && IsWhitespace(s[0]) {
      IndexOfNonWhitespaceIsFirst(s[1..]);
      var k := IndexOfNonWhitespace(s);
      forall i | 0 <= i < k ensures IsWhitespace(s[i]) {
        if i > 0 { assert s[i] == s[1..][i - 1]; }
      }
    }
  }

  /** `String.isBlank` on a non-null string. */
  predicate BlankString(s: string) {
    IndexOfNonWhitespace(s) == |s|
  }

  /** `isBlank`: null, or only whitespace. */
  function IsBlank(s: Option<string>): (r: bool)
    ensures r <==> s.None? || forall i :: 0 <= i < |s.value| ==> IsWhitespace(s.value[i])
  {
    if s.None? then true
    else
      IndexOfNonWhitespaceIsFirst(s.value);
      BlankString(s.value)
  }

  function IsNotBlank(s: Option<string>): (r: bool)
    ensures r <==> s.Some? && exists i :: 0 <= i < |s.value| && !IsWhitespace(s.value[i])
  {
    !IsBlank(s)
  }

  function AnyBlank(strings: seq<Option<string>>): (r: bool)
    ensures r <==> exists i :: 0 <= i < |strings| && IsBlank(strings[i])
  {
    if |strings| == 0 then false else IsBlank(strings[0]) || AnyBlank(strings[1..])
  }

  function AllBlank(strings: seq<Option<string>>): (r: bool)
    ensures r <==> forall i :: 0 <= i < |strings| ==> IsBlank(strings[i])
  {
    if |strings| == 0 then true else IsBlank(strings[0]) && AllBlank(strings[1..])
  }

  /** `isAnyBlank` (array and list overloads): a null list, or some blank entry. */
  function IsAnyBlank(strings: Option<seq<Option<string>>>): (r: bool)
    ensures r <==> strings.None? || exists i :: 0 <= i < |strings.value| && IsBlank(strings.value[i])
  {
    strings.None? || AnyBlank(strings.value)
  }

  /** `isAllBlank` (array and list overloads): a null list, or every entry blank. */
  function IsAllBlank(strings: Option<seq<Option<string>>>): (r: bool)
    ensures r <==> strings.None? || forall i :: 0 <= i < |strings.value| ==> IsBlank(strings.value[i])
  {
    strings.None? || AllBlank(strings.value)
  }

  /** A null list, or a non-empty list whose entries are all blank, is also
      any-blank. */
  lemma AllBlankImpliesAnyBlank(strings: Option<seq<Option<string>>>)
    requires strings.Some? ==> |strings.value| > 0
    ensures IsAllBlank(strings) ==> IsAnyBlank(strings)
  {
    if strings.Some? && IsAllBlank(strings) {
      assert IsBlank(strings.value[0]);
    }
  }

  function FirstNotBlank(strings: seq<Option<string>>): (r: string)
    ensures (r == "" && forall i :: 0 <= i < |strings| ==> IsBlank(strings[i]))
         || exists k :: 0 <= k < |strings| && strings[k] == Some(r) && !IsBlank(strings[k])
                        && forall i :: 0 <= i < k ==> IsBlank(strings[i])
  {
    if |strings| == 0 then ""
    else if IsNotBlank(strings[0]) then strings[0].value
    else
      var r := FirstNotBlank(strings[1..]);
      assert forall k :: 0 <= k < |strings| - 1 ==> strings[1..][k] == strings[k + 1];
      r
  }

  /** `takeNotBlank` (array and list overloads): the first entry that is not
      blank, or "" when there is none or the list is null or empty. */
  function TakeNotBlank(strings: Option<seq<Option<string>>>): (r: string)
    ensures strings.None? ==> r == ""
    ensures strings.Some? ==>
      (r == "" && forall i :: 0 <= i < |strings.value| ==> IsBlank(strings.value[i]))
      || exists k :: 0 <= k < |strings.value| && strings.value[k] == Some(r) && !IsBlank(strings.value[k])
                     && forall i :: 0 <= i < k ==> IsBlank(strings.value[i])
  {
    if strings.None? || |strings.value| == 0 then "" else FirstNotBlank(strings.value)
  }

  /** What string concatenation prints for a possibly-null string. */
  function Concatenated(s: Option<string>): string {
    if s.Some? then s.value else "null"
  }

  /** `padding(string, leftPad, rightPad)`. */
  function PaddingBoth(s: Option<string>, leftPad: Option<string>, rightPad: Option<string>): (r: string)
    ensures var l, m := |Concatenated(leftPad)|, |Concatenated(s)|;
      |r| == l + m + |Concatenated(rightPad)|
      && r[..l] == Concatenated(leftPad) && r[l..l + m] == Concatenated(s) && r[l + m..] == Concatenated(rightPad)
  {
    Concatenated(leftPad) + Concatenated(s) + Concatenated(rightPad)
  }

  /** `padding(string, padString)`: the same pad on both sides. */
  function Padding(s: Option<string>, pad: Option<string>): (r: string)
    ensures r == PaddingBoth(s, pad, pad)
  {
    Concatenated(pad) + Concatenated(s) + Concatenated(pad)
  }

  // ---------------------------------------------------------------- case conversion

  /** `capitalize`: a blank string, or one that already starts upper-case, is
      returned as is; otherwise the first character is upper-cased. */
  function Capitalize(s: string): (r: string)
    ensures |r| == |s|
    ensures |s| > 0 ==> r[0] == ToUpper(s[0]) && r[1..] == s[1..]
  {
    if BlankString(s) || IsUpper(s[0]) then s else [ToUpper(s[0])] + s[1..]
  }

  /** `uncapitalize`: the mirror image of `Capitalize`. */
  function Uncapitalize(s: string): (r: string)
    ensures |r| == |s|
    ensures |s| > 0 ==> r[0] == ToLower(s[0]) && r[1..] == s[1..]
  {
    if BlankString(s) || IsLower(s[0]) then s else [ToLower(s[0])] + s[1..]
  }

  lemma CapitalizeIdempotent(s: string)
    ensures Capitalize(Capitalize(s)) == Capitalize(s)
    ensures Uncapitalize(Uncapitalize(s)) == Uncapitalize(s)
  {
    if |s| > 0 {
      assert Capitalize(Capitalize(s)) == [Capitalize(s)[0]] + Capitalize(s)[1..];
      assert Uncapitalize(Uncapitalize(s)) == [Uncapitalize(s)[0]] + Uncapitalize(s)[1..];
    }
  }

  /** The pieces `split("(?<!^)(?=[A-Z])")` produces: a new piece starts at
      every upper-case letter except the first character. */
  function Words(s: string): (ws: seq<string>)
    ensures |ws| > 0
  {
    if |s| <= 1 then [s]
    else
      var rest := Words(s[1..]);
      if IsUpper(s[1]) then [[s[0]]] + rest else [[s[0]] + rest[0]] + rest[1..]
  }

  function LowerAll(ws: seq<string>): (r: seq<string>)
    ensures |r| == |ws| && forall i :: 0 <= i < |ws| ==> r[i] == LowerString(ws[i])
  {
    seq(|ws|, i requires 0 <= i < |ws| => LowerString(ws[i]))
  }

  function CapitalizeAll(ws: seq<string>): (r: seq<string>)
    ensures |r| == |ws| && forall i :: 0 <= i < |ws| ==> r[i] == Capitalize(ws[i])
  {
    seq(|ws|, i requires 0 <= i < |ws| => Capitalize(ws[i]))
  }

  /** `snakeCase`: split before interior upper-case letters, lower-case every
      piece, join with "_". */
  function SnakeCase(s: string): (r: string)
    ensures forall i :: 0 <= i < |r| ==> !IsUpper(r[i])
  {
    JoinNoUpper(LowerAll(Words(s)), "_");
    Join(LowerAll(Words(s)), "_")
  }

  /** The pieces between the occurrences of a non-empty `delimiter`, found
      left to right, trailing empty pieces included. */
  function Pieces(s: string, delimiter: string): (r: seq<string>)
    requires |delimiter| > 0
    ensures |r| >= 1
    decreases |s|
  {
    if |s| < |delimiter| then [s]
    else if s[..|delimiter|] == delimiter then [""] + Pieces(s[|delimiter|..], delimiter)
    else
      var rest := Pieces(s[1..], delimiter);
      [[s[0]] + rest[0]] + rest[1..]
  }

  /** The list without its trailing empty strings. */
  function DropTrailingEmpty(parts: seq<string>): (r: seq<string>)
    ensures |r| <= |parts| && r == parts[..|r|]
    ensures |r| > 0 ==> r[|r| - 1] != ""
    ensures forall i :: |r| <= i < |parts| ==> parts[i] == ""
  {
    if |parts| == 0 || parts[|parts| - 1] != "" then parts
    else DropTrailingEmpty(parts[..|parts| - 1])
  }

  /** `String.split` with a delimiter that has no special meaning as a
      regular expression: the input itself when the delimiter does not
      occur, else the pieces without trailing empty ones. */
  function Split(s: string, delimiter: string): (r: seq<string>)
    requires |delimiter| > 0
  {
    var pieces := Pieces(s, delimiter);
    if |pieces| == 1 then [s] else DropTrailingEmpty(pieces)
  }

  /** `camelCase`: split on "_", capitalize every piece, join, uncapitalize. */
  function CamelCase(s: string): (r: string)
    ensures |r| > 0 ==> !IsUpper(r[0])
  {
    Uncapitalize(Join(CapitalizeAll(Split(s, "_")), ""))
  }

  // ---------------------------------------------------------------- lemmas

  lemma {:induction false} JoinNoUpper(ws: seq<string>, sep: string)
    requires forall i :: 0 <= i < |sep| ==> !IsUpper(sep[i])
    requires forall i, j :: 0 <= i < |ws| && 0 <= j < |ws[i]| ==> !IsUpper(ws[i][j])
    ensures forall k :: 0 <= k < |Join(ws, sep)| ==> !IsUpper(Join(ws, sep)[k])
  {
    if |ws| > 1 {
      JoinNoUpper(ws[1..], sep);
      var w, b := ws[0], Join(ws[1..], sep);
      assert Join(ws, sep) == w + sep + b;
      forall k | 0 <= k < |w + sep + b| ensures !IsUpper((w + sep + b)[k]) {
        if k < |w| { assert (w + sep + b)[k] == w[k]; }
        else if k < |w| + |sep| { assert (w + sep + b)[k] == sep[k - |w|]; }
        else { assert (w + sep + b)[k] == b[k - |w| - |sep|]; }
      }
    }
  }

  /** The pieces of `Words` rebuild the input. */
  lemma {:induction false} WordsJoin(s: string)
    ensures Join(Words(s), "") == s
  {
    if |s| > 1 {
      var rest := Words(s[1..]);
      WordsJoin(s[1..]);
      var ws := Words(s);
      if IsUpper(s[1]) {
        assert ws == [[s[0]]] + rest && ws[1..] == rest;
      } else {
        assert ws == [[s[0]] + rest[0]] + rest[1..] && ws[1..] == rest[1..];
        if |rest| > 1 {
          assert Join(rest, "") == rest[0] + "" + Join(rest[1..], "");
        }
      }
      assert s == [s[0]] + s[1..];
    }
  }

  /** The pieces of `Words(s)` are non-empty and the first starts with s[0]. */
  lemma {:induction false} WordsNonEmpty(s: string)
    requires |s| > 0
    ensures forall i :: 0 <= i < |Words(s)| ==> |Words(s)[i]| > 0
    ensures Words(s)[0][0] == s[0]
  {
    if |s| > 1 {
      WordsNonEmpty(s[1..]);
      var rest, ws := Words(s[1..]), Words(s);
      if IsUpper(s[1]) {
        assert forall i :: 1 <= i < |ws| ==> ws[i] == rest[i - 1];
      } else {
        assert forall i :: 1 <= i < |ws| ==> ws[i] == rest[i];
      }
    }
  }

  /** From the second piece on, every piece starts with an upper-case letter,
      and no piece holds one after its first character. */
  lemma WordsCase(s: string)
    requires |s| > 0
    ensures forall i :: 1 <= i < |Words(s)| ==> |Words(s)[i]| > 0 && IsUpper(Words(s)[i][0])
    ensures forall i, j :: 0 <= i < |Words(s)| && 1 <= j < |Words(s)[i]| ==> !IsUpper(Words(s)[i][j])
  {
    WordsNonEmpty(s);
    WordsStartUpper(s);
    WordsRestLower(s);
    assert forall i :: 0 <= i < |Words(s)| ==> TailNotUpper(Words(s)[i]);
  }

  lemma {:induction false} WordsStartUpper(s: string)
    requires |s| > 0
    ensures forall i :: 1 <= i < |Words(s)| ==> |Words(s)[i]| > 0 && IsUpper(Words(s)[i][0])
  {
    if |s| > 1 {
      WordsStartUpper(s[1..]);
      WordsNonEmpty(s[1..]);
      var rest, ws := Words(s[1..]), Words(s);
      if IsUpper(s[1]) {
        assert forall i :: 1 <= i < |ws| ==> ws[i] == rest[i - 1];
      } else {
        assert forall i :: 1 <= i < |ws| ==> ws[i] == rest[i];
      }
    }
  }

  /** No upper-case letter after the first character. */
  predicate TailNotUpper(w: string) {
    forall j :: 1 <= j < |w| ==> !IsUpper(w[j])
  }

  lemma {:induction false} WordsRestLower(s: string)
    requires |s| > 0
    ensures forall i :: 0 <= i < |Words(s)| ==> TailNotUpper(Words(s)[i])
  {
    if |s| > 1 {
      WordsRestLower(s[1..]);
      var rest, ws := Words(s[1..]), Words(s);
      if IsUpper(s[1]) {
        assert forall i :: 1 <= i < |ws| ==> ws[i] == rest[i - 1];
      } else {
        WordsNonEmpty(s[1..]);
        assert forall i :: 1 <= i < |ws| ==> ws[i] == rest[i];
        var first := [s[0]] + rest[0];
        assert ws[0] == first;
        assert TailNotUpper(rest[0]);
        assert forall j :: 1 <= j < |first| ==> first[j] == rest[0][j - 1];
      }
    }
  }

  /** A character that does not occur in `s` occurs in none of its pieces. */
  lemma {:induction false} WordsAvoid(s: string, x: char)
    requires x !in s
    ensures forall i :: 0 <= i < |Words(s)| ==> x !in Words(s)[i]
  {
    if |s| > 1 {
      assert x !in s[1..] by { assert forall y :: y in s[1..] ==> y in s; }
      WordsAvoid(s[1..], x);
      var rest, ws := Words(s[1..]), Words(s);
      if IsUpper(s[1]) {
        forall i | 1 <= i < |ws| ensures ws[i] == rest[i - 1] { }
      } else {
        forall i | 1 <= i < |ws| ensures ws[i] == rest[i] { }
        assert x != s[0];
      }
    }
  }

  /** Joining a list that starts with `head` puts the separator after it. */
  lemma JoinCons(head: string, tail: seq<string>, separator: string)
    requires |tail| >= 1
    ensures Join([head] + tail, separator) == head + separator + Join(tail, separator)
  {
    assert ([head] + tail)[1..] == tail;
  }

  /** Putting a character in front of the first part puts it in front of
      the whole join. */
  lemma JoinPrefix(c: char, parts: seq<string>, separator: string)
    requires |parts| >= 1
    ensures Join([[c] + parts[0]] + parts[1..], separator) == [c] + Join(parts, separator)
  {
    var whole := [[c] + parts[0]] + parts[1..];
    if |parts| > 1 {
      assert whole[1..] == parts[1..];
      assert Join(whole, separator) == [c] + parts[0] + separator + Join(parts[1..], separator);
    }
  }

  /** Joining the pieces with the delimiter gives the input back. */
  lemma {:induction false} PiecesJoin(s: string, delimiter: string)
    requires |delimiter| > 0
    ensures Join(Pieces(s, delimiter), delimiter) == s
    decreases |s|
  {
    if |s| >= |delimiter| {
      if s[..|delimiter|] == delimiter {
        var rest := s[|delimiter|..];
        PiecesJoin(rest, delimiter);
        JoinCons("", Pieces(rest, delimiter), delimiter);
        assert s == delimiter + rest;
      } else {
        PiecesJoin(s[1..], delimiter);
        JoinPrefix(s[0], Pieces(s[1..], delimiter), delimiter);
        assert s == [s[0]] + s[1..];
      }
    }
  }

  /** `split` drops only empty strings: the pieces are what it returns
      followed by empty strings, and joining the pieces gives the input. */
  lemma SplitDropsOnlyEmpty(s: string, delimiter: string)
    requires |delimiter| > 0
    ensures var pieces := Pieces(s, delimiter);
      var r := Split(s, delimiter);
      Join(pieces, delimiter) == s &&
      (|pieces| == 1 ==> r == [s]) &&
      (|pieces| > 1 ==> r == pieces[..|r|] && forall i :: |r| <= i < |pieces| ==> pieces[i] == "")
  {
    PiecesJoin(s, delimiter);
  }

  /** One step of the split on a single character: the separator closes the
      piece, any other character starts the first piece of the rest. */
  lemma PiecesStep(c: char, rest: string, sep: char)
    ensures Pieces([c] + rest, [sep]) ==
      if c == sep then [""] + Pieces(rest, [sep])
      else [[c] + Pieces(rest, [sep])[0]] + Pieces(rest, [sep])[1..]
  {
    var s := [c] + rest;
    assert s[..1] == [c] && s[1..] == rest;
  }

  /** A string without the separator is a single piece. */
  lemma {:induction false} PiecesWhole(w: string, sep: char)
    requires sep !in w
    ensures Pieces(w, [sep]) == [w]
  {
    if |w| > 0 {
      assert w[0] in w;
      assert forall c :: c in w[1..] ==> c in w;
      PiecesWhole(w[1..], sep);
      assert [w[0]] + w[1..] == w;
      PiecesStep(w[0], w[1..], sep);
    }
  }

  /** A separator-free piece followed by the separator splits off as one piece. */
  lemma {:induction false} PiecesAfterWord(w: string, rest: string, sep: char)
    requires sep !in w
    ensures Pieces(w + [sep] + rest, [sep]) == [w] + Pieces(rest, [sep])
  {
    if |w| == 0 {
      assert w + [sep] + rest == [sep] + rest;
      PiecesStep(sep, rest, sep);
    } else {
      var tail := w[1..] + [sep] + rest;
      assert w + [sep] + rest == [w[0]] + tail;
      assert w[0] in w;
      assert forall c :: c in w[1..] ==> c in w;
      PiecesAfterWord(w[1..], rest, sep);
      PiecesStep(w[0], tail, sep);
      assert [w[0]] + w[1..] == w;
    }
  }

  /** The pieces of a joined list are the list when no entry contains the
      separator. */
  lemma {:induction false} PiecesOfJoin(ws: seq<string>, sep: char)
    requires |ws| > 0
    requires forall i :: 0 <= i < |ws| ==> sep !in ws[i]
    ensures Pieces(Join(ws, [sep]), [sep]) == ws
  {
    if |ws| == 1 {
      PiecesWhole(ws[0], sep);
    } else {
      PiecesOfJoin(ws[1..], sep);
      PiecesAfterWord(ws[0], Join(ws[1..], [sep]), sep);
      assert ws == [ws[0]] + ws[1..];
    }
  }

  /** `split` undoes joining non-empty entries that avoid the separator. */
  lemma SplitOfJoin(ps: seq<string>, sep: char)
    requires |ps| > 0
    requires forall i :: 0 <= i < |ps| ==> sep !in ps[i] && |ps[i]| > 0
    ensures Split(Join(ps, [sep]), [sep]) == ps
  {
    PiecesOfJoin(ps, sep);
    if |ps| == 1 {
      assert Join(ps, [sep]) == ps[0];
    } else {
      assert ps[|ps| - 1] != "";
    }
  }

  lemma LowerAvoids(w: string, x: char)
    requires x !in w && !IsUpper(x) && !IsLower(x)
    ensures x !in LowerString(w)
  {
    forall j | 0 <= j < |w| ensures LowerString(w)[j] != x {
      assert w[j] in w;
    }
  }

  /** Splitting snakeCase's output on "_" gives back its lower-cased pieces. */
  lemma SnakeCaseSplit(s: string)
    requires '_' !in s && |s| > 0
    ensures Split(SnakeCase(s), "_") == LowerAll(Words(s))
  {
    var ws := Words(s);
    WordsNonEmpty(s);
    WordsAvoid(s, '_');
    var lw := LowerAll(ws);
    forall i | 0 <= i < |lw| ensures '_' !in lw[i] && |lw[i]| > 0 {
      LowerAvoids(ws[i], '_');
    }
    SplitOfJoin(lw, '_');
  }

  /** Lower-casing a piece whose only upper-case letter is its first
      character changes only that character, and capitalizing undoes it. */
  lemma LowerRest(w: string)
    requires |w| > 0
    requires forall j :: 1 <= j < |w| ==> !IsUpper(w[j])
    ensures LowerString(w)[1..] == w[1..]
    ensures Capitalize(LowerString(w)) == [ToUpper(ToLower(w[0]))] + w[1..]
  {
    LowerKeepsRest(w);
    CapitalizeLowered(w, LowerString(w));
  }

  lemma LowerKeepsRest(w: string)
    requires |w| > 0
    requires forall j :: 1 <= j < |w| ==> !IsUpper(w[j])
    ensures LowerString(w)[1..] == w[1..]
  {
    var l := LowerString(w);
    assert forall j :: 1 <= j < |w| ==> l[j] == w[j];
  }

  lemma CapitalizeLowered(w: string, l: string)
    requires |w| > 0 && l == LowerString(w) && l[1..] == w[1..]
    ensures Capitalize(l) == [ToUpper(ToLower(w[0]))] + w[1..]
  {
  }

  /** A piece that starts with its only upper-case letter survives
      lower-casing followed by capitalizing. */
  lemma CapitalizeLoweredWord(w: string)
    requires |w| > 0 && IsUpper(w[0])
    requires forall j :: 1 <= j < |w| ==> !IsUpper(w[j])
    ensures Capitalize(LowerString(w)) == w
  {
    LowerRest(w);
    assert ToUpper(ToLower(w[0])) == w[0];
    assert w == [w[0]] + w[1..];
  }

  /** Lower-casing then capitalizing pieces shaped like the output of `Words`
      changes only the first character of the first piece. */
  lemma CapitalizeLowerWords(ws: seq<string>)
    requires |ws| > 0
    requires forall i :: 0 <= i < |ws| ==> |ws[i]| > 0
    requires forall i :: 1 <= i < |ws| ==> IsUpper(ws[i][0])
    requires forall i, j :: 0 <= i < |ws| && 1 <= j < |ws[i]| ==> !IsUpper(ws[i][j])
    ensures CapitalizeAll(LowerAll(ws))[0] == [ToUpper(ToLower(ws[0][0]))] + ws[0][1..]
    ensures CapitalizeAll(LowerAll(ws))[1..] == ws[1..]
  {
    var cs := CapitalizeAll(LowerAll(ws));
    LowerRest(ws[0]);
    forall i | 1 <= i < |ws| ensures cs[i] == ws[i] {
      var w := ws[i];
      assert forall j :: 1 <= j < |w| ==> !IsUpper(w[j]);
      CapitalizeLoweredWord(w);
    }
  }

  /** Replacing the first character of the first piece replaces the first
      character of the joined string. */
  lemma JoinSwapHead(cs: seq<string>, ws: seq<string>, h: string)
    requires |cs| == |ws| > 0 && |ws[0]| > 0
    requires cs[1..] == ws[1..] && cs[0] == h + ws[0][1..]
    ensures Join(cs, "") == h + Join(ws, "")[1..]
  {
    if |ws| > 1 {
      assert Join(cs, "") == cs[0] + "" + Join(cs[1..], "");
      assert Join(ws, "") == ws[0] + "" + Join(ws[1..], "");
      assert (ws[0] + Join(ws[1..], ""))[1..] == ws[0][1..] + Join(ws[1..], "");
    }
  }

  /** Joining the capitalized lower-cased pieces of `s` gives `s` with its
      first character upper-cased. */
  lemma SnakeCaseJoined(s: string)
    requires '_' !in s && |s| > 0
    ensures Join(CapitalizeAll(Split(SnakeCase(s), "_")), "") == [ToUpper(ToLower(s[0]))] + s[1..]
  {
    var ws := Words(s);
    SnakeCaseSplit(s);
    WordsNonEmpty(s);
    WordsCase(s);
    WordsJoin(s);
    CapitalizeLowerWords(ws);
    JoinSwapHead(CapitalizeAll(LowerAll(ws)), ws, [ToUpper(ToLower(s[0]))]);
  }

  /** camelCase undoes snakeCase for names without "_" that do not start with
      an upper-case letter, e.g. "userName" -> "user_name" -> "userName". */
  lemma CamelCaseOfSnakeCase(s: string)
    requires '_' !in s
    requires |s| > 0 ==> !IsUpper(s[0])
    ensures CamelCase(SnakeCase(s)) == s
  {
    if |s| == 0 {
      assert Words(s) == [""];
      assert LowerAll([""]) == [""];
      assert Split("", "_") == [""];
      assert CapitalizeAll([""]) == [""];
    } else {
      var joined := Join(CapitalizeAll(Split(SnakeCase(s), "_")), "");
      SnakeCaseJoined(s);
      assert ToLower(ToUpper(ToLower(s[0]))) == s[0];
      assert Uncapitalize(joined) == [s[0]] + s[1..];
    }
  }
}
