# panda-r2dbc in Dafny

panda-r2dbc is a reactive ORM built on Spring Data R2DBC. It maps annotated entities (`@TableEntity`, `@TableId`, `@TableColumn`, `@TableLogic`, `@TableReference`) to tables and builds SQL through an enhanced criteria API and a "seeker" query DSL. It generates ids with a Snowflake generator, keeps optimistic-locking versions, and runs plugins such as logical deletion around the insert, update and select executors. A partial MySQL driver sits beside it. This project models those parts in Dafny and proves what they promise:

- **Pure helpers become functions and lemmas:** `StringKit`, `CollectionKit`, `IdKit`, `ValidationStrategy`, `Pagination`/`Page`/`PageParameter`, the mapping kit, and the MySQL error and column-definition decoders.
- **Classes whose fields change become Dafny classes with `modifies` and `reads` frames:** the Snowflake generator, the naming-strategy cache, the two-key cache, the plugin context/executor/option, the enum handler, the seeker, the statement support and Netty's `ByteBuf`.
- **Loops become methods** proved against a specification function: criteria rendering, the Cartesian product, SQL Server bind-marker filtering, the buffer reads, and the executors' preparation of insert and update statements.

Java exceptions are modelled as the error case of `Outcome<T>` (module `Wrappers`). Java values are modelled by `JavaValues.Value`, whose `ToString` follows the JDK's `toString`. `int` and `long` arithmetic is wrapped explicitly where the source overflows.

## Model

| member | source | states |
|---|---|---|
| IdKit.IsIdNotEffective | panda-r2dbc-core/src/main/java/com/jxpanda/r2dbc/spring/data/core/enhance/key/IdKit.java:7-9 | An id is not effective exactly when `isIdEffective` rejects it. |
| IdKit.IdEffectiveCases | panda-r2dbc-core/src/main/java/com/jxpanda/r2dbc/spring/data/core/enhance/key/IdKit.java:11-21 | Null is never effective. A number is effective iff its `longValue()` is not 0. A string is effective iff it is neither "" nor "0". Any other kind is never effective. |
| IdKit.WideZeroIsNotEffective | panda-r2dbc-core/src/main/java/com/jxpanda/r2dbc/spring/data/core/enhance/key/IdKit.java:15-17 | 2^64 narrows to the long 0, so it is not an effective id. |
| Validation.IsNotEffective | panda-r2dbc-core/src/main/java/com/jxpanda/r2dbc/spring/data/core/enhance/strategy/ValidationStrategy.java:52-54 | `isNotEffective` is the negation of `isEffective` for every strategy and value. |
| Validation.StrategiesAccept | panda-r2dbc-core/src/main/java/com/jxpanda/r2dbc/spring/data/core/enhance/strategy/ValidationStrategy.java:21-37 | DEFAULT and NOT_CHECK accept everything. NOT_NULL accepts iff the value is not null. NOT_EMPTY rejects null, "" and empty collections, and accepts numbers, booleans, pairs and other objects. |
| Validation.StrategiesNest | panda-r2dbc-core/src/main/java/com/jxpanda/r2dbc/spring/data/core/enhance/strategy/ValidationStrategy.java:21-50 | Whatever NOT_EMPTY accepts, NOT_NULL accepts. Whatever NOT_NULL accepts, NOT_CHECK accepts. |
| StringKit.IsBlank | panda-r2dbc-core/src/main/java/com/jxpanda/r2dbc/spring/data/extension/kit/StringKit.java:17-19 | True iff the string is null or consists only of whitespace. |
| StringKit.IsNotBlank | panda-r2dbc-core/src/main/java/com/jxpanda/r2dbc/spring/data/extension/kit/StringKit.java:21-23 | The negation of `isBlank`. |
| StringKit.IsAnyBlank | panda-r2dbc-core/src/main/java/com/jxpanda/r2dbc/spring/data/extension/kit/StringKit.java:29-39 | True iff the array is null or some element is blank. |
| StringKit.IsAllBlank | panda-r2dbc-core/src/main/java/com/jxpanda/r2dbc/spring/data/extension/kit/StringKit.java:45-55 | True iff the array is null or every element is blank. |
| StringKit.AllBlankImpliesAnyBlank | panda-r2dbc-core/src/main/java/com/jxpanda/r2dbc/spring/data/extension/kit/StringKit.java:29-55 | A non-empty array whose elements are all blank has a blank element. |
| StringKit.TakeNotBlank | panda-r2dbc-core/src/main/java/com/jxpanda/r2dbc/spring/data/extension/kit/StringKit.java:63-81 | The first non-blank string of the array, or "" when there is none or the array is null or empty. |
| StringKit.PaddingBoth | panda-r2dbc-core/src/main/java/com/jxpanda/r2dbc/spring/data/extension/kit/StringKit.java:102-104 | The result is the left pad, then the string, then the right pad. |
| StringKit.Padding | panda-r2dbc-core/src/main/java/com/jxpanda/r2dbc/spring/data/extension/kit/StringKit.java:90-92 | The same pad on both sides. |
| StringKit.Capitalize | panda-r2dbc-core/src/main/java/com/jxpanda/r2dbc/spring/data/extension/kit/StringKit.java:134-140 | Keeps the length, upper-cases the first character and keeps the rest, so a string that already starts upper-case comes back unchanged. |
| StringKit.Uncapitalize | panda-r2dbc-core/src/main/java/com/jxpanda/r2dbc/spring/data/extension/kit/StringKit.java:145-151 | Keeps the length, lower-cases the first character and keeps the rest, so a string that already starts lower-case comes back unchanged. |
| StringKit.CapitalizeIdempotent | panda-r2dbc-core/src/main/java/com/jxpanda/r2dbc/spring/data/extension/kit/StringKit.java:134-151 | Capitalizing twice equals capitalizing once, and the same holds for uncapitalizing. |
| StringKit.SnakeCase | panda-r2dbc-core/src/main/java/com/jxpanda/r2dbc/spring/data/extension/kit/StringKit.java:112-116 | The snake-case form contains no upper-case letter. |
| StringKit.CamelCase | panda-r2dbc-core/src/main/java/com/jxpanda/r2dbc/spring/data/extension/kit/StringKit.java:124-129 | The camel-case form never starts with an upper-case letter. |
| StringKit.WordsJoin | panda-r2dbc-core/src/main/java/com/jxpanda/r2dbc/spring/data/extension/kit/StringKit.java:113 | The pieces cut before each capital join back to the input. |
| StringKit.WordsCase | panda-r2dbc-core/src/main/java/com/jxpanda/r2dbc/spring/data/extension/kit/StringKit.java:113 | Every piece after the first starts with a capital, and no piece has a capital after its first character. |
| StringKit.SnakeCaseSplit | panda-r2dbc-core/src/main/java/com/jxpanda/r2dbc/spring/data/extension/kit/StringKit.java:112-116 | Splitting the snake-case form on "_" gives exactly the lower-cased words. |
| StringKit.PiecesJoin | panda-r2dbc-core/src/main/java/com/jxpanda/r2dbc/spring/data/extension/kit/StringKit.java:125 | The pieces between the delimiters join back to the string. |
| StringKit.SplitDropsOnlyEmpty | panda-r2dbc-core/src/main/java/com/jxpanda/r2dbc/spring/data/extension/kit/StringKit.java:125 | `split` returns the whole string when the delimiter does not occur, and otherwise the pieces less only trailing empty ones. |
| StringKit.PiecesOfJoin | panda-r2dbc-core/src/main/java/com/jxpanda/r2dbc/spring/data/extension/kit/StringKit.java:125 | The pieces of a joined list are the list when no entry holds the separator. |
| StringKit.SplitOfJoin | panda-r2dbc-core/src/main/java/com/jxpanda/r2dbc/spring/data/extension/kit/StringKit.java:125 | `split` on one character undoes `join` for non-empty pieces that do not contain it. |
| StringKit.CamelCaseOfSnakeCase | panda-r2dbc-core/src/main/java/com/jxpanda/r2dbc/spring/data/extension/kit/StringKit.java:112-129 | camelCase(snakeCase(s)) == s for any s that has no "_" and does not start upper-case. |
| CollectionKit.MergeLength | panda-r2dbc-core/src/main/java/com/jxpanda/r2dbc/spring/data/extension/kit/CollectionKit.java:49-61 | The merged list is as long as all the lists together. |
| CollectionKit.MergeAppend | panda-r2dbc-core/src/main/java/com/jxpanda/r2dbc/spring/data/extension/kit/CollectionKit.java:49-61 | Merging distributes over concatenation of the list of lists. |
| CollectionKit.MergeMembers | panda-r2dbc-core/src/main/java/com/jxpanda/r2dbc/spring/data/extension/kit/CollectionKit.java:49-61 | An element is in the merged list iff it is in one of the lists. |
| CollectionKit.DistinctByIsFirsts | panda-r2dbc-core/src/main/java/com/jxpanda/r2dbc/spring/data/extension/kit/CollectionKit.java:66-70 | The toMap/LinkedHashMap pipeline keeps, in first-seen order, the first element of each key. |
| CollectionKit.DistinctByKeepsFirst | panda-r2dbc-core/src/main/java/com/jxpanda/r2dbc/spring/data/extension/kit/CollectionKit.java:66-70 | The result has pairwise different keys, the same key set as the input, and only input elements. |
| CollectionKit.DistinctMergeNoDuplicates | panda-r2dbc-core/src/main/java/com/jxpanda/r2dbc/spring/data/extension/kit/CollectionKit.java:15-27 | `distinctMerge` has no duplicates and contains exactly the elements of the input lists. |
| CollectionKit.DistinctMergeOverloadsAgree | panda-r2dbc-core/src/main/java/com/jxpanda/r2dbc/spring/data/extension/kit/CollectionKit.java:32-44 | The array overload of keyed `distinctMerge` (distinct first, then by key) gives the same list as the list overload. |
| CollectionKit.DistinctByAfterDistinct | panda-r2dbc-core/src/main/java/com/jxpanda/r2dbc/spring/data/extension/kit/CollectionKit.java:41-44 | De-duplicating before de-duplicating by key changes nothing. |
| CollectionKit.IsEmpty | panda-r2dbc-core/src/main/java/com/jxpanda/r2dbc/spring/data/extension/kit/CollectionKit.java:84-86 | A collection is empty iff it is null or has no elements. |
| CollectionKit.CartesianProduct | panda-r2dbc-core/src/main/java/com/jxpanda/r2dbc/spring/data/extension/kit/CollectionKit.java:123-153 | The loop returns exactly the Cartesian specification: [] for a null source or a non-positive product, an ArithmeticException for an empty inner list, and otherwise tuple i for every index i below the product. |
| CollectionKit.BuildTuple | panda-r2dbc-core/src/main/java/com/jxpanda/r2dbc/spring/data/extension/kit/CollectionKit.java:141-150 | The inner loop succeeds iff every list is non-empty, and then builds the tuple the mixed-radix digits of the index select. |
| CollectionKit.CartesianOfNothing | panda-r2dbc-core/src/main/java/com/jxpanda/r2dbc/spring/data/extension/kit/CollectionKit.java:100-126 | A null or empty source gives the empty list. |
| CollectionKit.PowerIsProduct | panda-r2dbc-core/src/main/java/com/jxpanda/r2dbc/spring/data/extension/kit/CollectionKit.java:129-133 | Without 32-bit overflow, the stream's product of sizes is the true product. |
| CollectionKit.CartesianCovers | panda-r2dbc-core/src/main/java/com/jxpanda/r2dbc/spring/data/extension/kit/CollectionKit.java:129-151 | Every choice of one element per list appears in the product, at the index its digits encode, and the product has exactly Product(lists) tuples. |
| CollectionKit.TupleAtEncode | panda-r2dbc-core/src/main/java/com/jxpanda/r2dbc/spring/data/extension/kit/CollectionKit.java:142-148 | The tuple at an encoded index holds the chosen elements, with the last list first. |
| CollectionKit.CartesianEmptyInner | panda-r2dbc-core/src/main/java/com/jxpanda/r2dbc/spring/data/extension/kit/CollectionKit.java:144-147 | An empty inner list beside non-empty ones makes `index % size` divide by zero. |
| Pages.NewPagination | panda-r2dbc-core/src/main/java/com/jxpanda/r2dbc/spring/data/core/enhance/query/page/Pagination.java:17-19 | Content and request are kept. The total is the one given, or offset + size of content when Spring adjusts it. |
| Pages.CalculatePages | panda-r2dbc-core/src/main/java/com/jxpanda/r2dbc/spring/data/core/enhance/query/page/Pagination.java:64-66 | A zero page size throws an ArithmeticException. |
| Pages.CalculatePagesIsCeiling | panda-r2dbc-core/src/main/java/com/jxpanda/r2dbc/spring/data/core/enhance/query/page/Pagination.java:64-66 | For a positive page size and a long total, the page count is the ceiling of total / size. |
| Pages.Previous | panda-r2dbc-core/src/main/java/com/jxpanda/r2dbc/spring/data/core/enhance/query/page/Pagination.java:72-74 | Never negative, and one less than the page index when there is a previous page. |
| Pages.Next | panda-r2dbc-core/src/main/java/com/jxpanda/r2dbc/spring/data/core/enhance/query/page/Pagination.java:80-82 | An `int` never beyond the page count: the next index when it is below the count, otherwise the count. |
| Pages.Saturated | panda-r2dbc-core/src/main/java/com/jxpanda/r2dbc/spring/data/core/enhance/query/page/Pagination.java:84-87 | Narrowing to `int` keeps an `int` and clamps anything beyond to the range's ends. |
| Pages.TotalPagesRule | panda-r2dbc-core/src/main/java/com/jxpanda/r2dbc/spring/data/core/enhance/query/page/Pagination.java:84-87 | The page count is an `int`: the exact ceiling of total / size when it fits, `Integer.MAX_VALUE` beyond, and never negative for a non-negative total. |
| Pages.NeighboursAreOneOff | panda-r2dbc-core/src/main/java/com/jxpanda/r2dbc/spring/data/core/enhance/query/page/Pagination.java:68-78 | As written, the first of two pages of 5 claims a previous page and no next one. |
| Pages.NeighboursCorrected | panda-r2dbc-core/src/main/java/com/jxpanda/r2dbc/spring/data/core/enhance/query/page/Pagination.java:68-119 | A next page exists iff records lie beyond this page. As written, the first page always claims a previous one and `hasNext` answers for the following page. |
| Pages.Paging | panda-r2dbc-core/src/main/java/com/jxpanda/r2dbc/spring/data/core/enhance/query/page/Pagination.java:46-59 | Succeeds iff the page number is at least 0 and the size at least 1. The content is the slice of the data for the 1-based page number. |
| Pages.PagingCorrected | panda-r2dbc-core/src/main/java/com/jxpanda/r2dbc/spring/data/core/enhance/query/page/Pagination.java:46-59 | The corrected paging has the same content and reports the 0-based page index. |
| Pages.PagingSlice | panda-r2dbc-core/src/main/java/com/jxpanda/r2dbc/spring/data/core/enhance/query/page/Pagination.java:51-55 | Without overflow, the records are data[(n-1)*size .. min(n*size, len)], or empty past the end. |
| Pages.PagingNullData | panda-r2dbc-core/src/main/java/com/jxpanda/r2dbc/spring/data/core/enhance/query/page/Pagination.java:49-55 | Null data gives an empty page with total 0. |
| Pages.PagingPastLastPage | panda-r2dbc-core/src/main/java/com/jxpanda/r2dbc/spring/data/core/enhance/query/page/Pagination.java:53-55 | A page that starts past the data is empty. |
| Pages.PagingNumberIsOneTooHigh | panda-r2dbc-core/src/main/java/com/jxpanda/r2dbc/spring/data/core/enhance/query/page/Pagination.java:58 | paging(1, 10, data) with 1 to 10 items reports page number 2 and a total of 10 + len. |
| Pages.PagingCorrectedReportsPage | panda-r2dbc-core/src/main/java/com/jxpanda/r2dbc/spring/data/core/enhance/query/page/Pagination.java:58 | The corrected paging reports the requested page number and the data's length as the total. |
| Pages.FromContent | panda-r2dbc-core/src/main/java/com/jxpanda/r2dbc/spring/data/core/enhance/query/page/Pagination.java:21-23 | Succeeds iff the content is non-empty. The content is kept and the total becomes twice its size, because the request is page 1. |
| Pages.DefaultPage | panda-r2dbc-core/src/main/java/com/jxpanda/r2dbc/spring/data/core/enhance/query/page/Pagination.java:151-153 | The default request builds page 0 with size 10 and no sort. |
| Pages.BuildPageableShiftsToZeroBased | panda-r2dbc-core/src/main/java/com/jxpanda/r2dbc/spring/data/core/enhance/query/page/Pagination.java:146-149 | `of` succeeds iff the 1-based number and the size are at least 1, and requests page number - 1. |
| Pages.Offset | panda-r2dbc-core/src/main/java/com/jxpanda/r2dbc/spring/data/core/enhance/query/page/Page.java:46-52 | Never negative, and 0 for the first page or below. |
| Pages.OffsetOfLaterPage | panda-r2dbc-core/src/main/java/com/jxpanda/r2dbc/spring/data/core/enhance/query/page/Page.java:51 | Without overflow, a later page's offset is (current - 1) * size. |
| Pages.Limit | panda-r2dbc-core/src/main/java/com/jxpanda/r2dbc/spring/data/core/enhance/query/page/Page.java:57-59 | The limit is the page size. |
| Pages.Total | panda-r2dbc-core/src/main/java/com/jxpanda/r2dbc/spring/data/core/enhance/query/page/Page.java:32-34 | `getTotal` reports -1, meaning no count is known. |
| Pages.IsQueryCount | panda-r2dbc-core/src/main/java/com/jxpanda/r2dbc/spring/data/core/enhance/query/page/Page.java:39-41 | A Page always asks for a count. |
| Pages.NewPageParameter | panda-r2dbc-core/src/main/java/com/jxpanda/r2dbc/spring/data/core/enhance/query/page/PageParameter.java:27-29 | Keeps number and size, asks for a count, and has no sort. |
| Pages.NewSortedPageParameter | panda-r2dbc-core/src/main/java/com/jxpanda/r2dbc/spring/data/core/enhance/query/page/PageParameter.java:31-33 | Keeps number, size and sort, and asks for a count. |
| Pages.PageNumber | panda-r2dbc-core/src/main/java/com/jxpanda/r2dbc/spring/data/core/enhance/query/page/PageParameter.java:35-37 | Always at least 1, and equal to the given number when that is at least 1. |
| Pages.BuildRequest | panda-r2dbc-core/src/main/java/com/jxpanda/r2dbc/spring/data/core/enhance/query/page/PageParameter.java:43-46 | Succeeds iff the size is at least 1. It requests the 0-based page PageNumber - 1 with the given size and sort. |
| Snowflake.MaskConstants | panda-r2dbc-core/src/main/java/com/jxpanda/r2dbc/spring/data/core/enhance/key/SnowflakeGenerator.java:93-121 | The masks `~(-1L << bits)` are 31 and 4095, and the shifts put each field right after the previous one. |
| Snowflake.MaskIsModulo | panda-r2dbc-core/src/main/java/com/jxpanda/r2dbc/spring/data/core/enhance/key/SnowflakeGenerator.java:195 | `& SEQUENCE_MASK` is the remainder modulo 4096. |
| Snowflake.FieldsDisjoint | panda-r2dbc-core/src/main/java/com/jxpanda/r2dbc/spring/data/core/enhance/key/SnowflakeGenerator.java:212-218 | For fields in range, or-ing the shifted fields equals adding them. |
| Snowflake.ComposeDecodes | panda-r2dbc-core/src/main/java/com/jxpanda/r2dbc/spring/data/core/enhance/key/SnowflakeGenerator.java:212-218 | An id decodes back to its time offset, data center, worker and sequence. |
| Snowflake.ComposeIncreases | panda-r2dbc-core/src/main/java/com/jxpanda/r2dbc/spring/data/core/enhance/key/SnowflakeGenerator.java:204-218 | A later timestamp, or the same timestamp with a larger sequence, gives a larger id. |
| Snowflake.Generator.constructor | panda-r2dbc-core/src/main/java/com/jxpanda/r2dbc/spring/data/core/enhance/key/SnowflakeGenerator.java:149-160 | Stores the data center, worker and offset, with sequence 0 and last timestamp -1. |
| Snowflake.NewGenerator | panda-r2dbc-core/src/main/java/com/jxpanda/r2dbc/spring/data/core/enhance/key/SnowflakeGenerator.java:149-160 | Refuses a data center or worker outside 0..31 with an IllegalArgumentException. Otherwise builds a fresh valid generator. |
| Snowflake.Generator.TilNextMillis | panda-r2dbc-core/src/main/java/com/jxpanda/r2dbc/spring/data/core/enhance/key/SnowflakeGenerator.java:228-235 | Reads the clock until it passes the last timestamp and returns that reading. |
| Snowflake.Generator.Next | panda-r2dbc-core/src/main/java/com/jxpanda/r2dbc/spring/data/core/enhance/key/SnowflakeGenerator.java:167-220 | Fails exactly when the clock went back more than the offset, or is still behind after the wait, and then leaves the state unchanged. Otherwise the id is composed from the new state, and (timestamp, sequence) strictly increases. |
| Snowflake.Generator.CheckedNow | panda-r2dbc-core/src/main/java/com/jxpanda/r2dbc/spring/data/core/enhance/key/SnowflakeGenerator.java:168-190 | Accepts a reading at or after the last timestamp. A small backward step is read again after the wait. Any other reading is refused. A success consumed a reading and returns the latest one. |
| Snowflake.NextTwice | panda-r2dbc-core/src/main/java/com/jxpanda/r2dbc/spring/data/core/enhance/key/SnowflakeGenerator.java:193-218 | Two successful calls give strictly increasing ids when every later reading is at or after the start time and the last timestamp is within the 41-bit range, including a fresh generator. |
| Snowflake.Clock.Now | panda-r2dbc-core/src/main/java/com/jxpanda/r2dbc/spring/data/core/enhance/key/SnowflakeGenerator.java:242-244 | Each read returns the next reading of the clock. |
| Criteria.Make | panda-r2dbc-core/src/main/java/com/jxpanda/r2dbc/spring/data/core/enhance/query/criteria/EnhancedCriteria.java:39-60 | Keeps every field given. A node after an empty chain gets the INITIAL combinator. |
| Criteria.Chain | panda-r2dbc-core/src/main/java/com/jxpanda/r2dbc/spring/data/core/enhance/query/criteria/EnhancedCriteria.java:397-407 | The chain ends at the node, starts at a node without a predecessor, and links each node to the one before. |
| Criteria.IsEmptyWalk | panda-r2dbc-core/src/main/java/com/jxpanda/r2dbc/spring/data/core/enhance/query/criteria/EnhancedCriteria.java:289-307 | The backward walk answers exactly `IsEmpty`. |
| Criteria.NodeEmptyScan | panda-r2dbc-core/src/main/java/com/jxpanda/r2dbc/spring/data/core/enhance/query/criteria/EnhancedCriteria.java:309-327 | The group scan answers exactly whether one node is empty. |
| Criteria.IsEmptyIffAllNodesEmpty | panda-r2dbc-core/src/main/java/com/jxpanda/r2dbc/spring/data/core/enhance/query/criteria/EnhancedCriteria.java:289-327 | Criteria are empty iff every node of their chain is empty. |
| Criteria.Where | panda-r2dbc-core/src/main/java/com/jxpanda/r2dbc/spring/data/core/enhance/query/criteria/EnhancedCriteria.java:125-130 | Refuses a blank column, and otherwise starts a new chain on that column. |
| Criteria.AndColumn | panda-r2dbc-core/src/main/java/com/jxpanda/r2dbc/spring/data/core/enhance/query/criteria/EnhancedCriteria.java:152-163 | Refuses a blank column, and otherwise continues these criteria on that column. |
| Criteria.OrColumn | panda-r2dbc-core/src/main/java/com/jxpanda/r2dbc/spring/data/core/enhance/query/criteria/EnhancedCriteria.java:199-210 | Refuses a blank column, and otherwise continues these criteria on that column. |
| Criteria.Complete | panda-r2dbc-core/src/main/java/com/jxpanda/r2dbc/spring/data/core/enhance/query/criteria/EnhancedCriteria.java:769-786 | The node has the step's predecessor and column, the comparator and value, and no group. It is not empty for any real comparator. |
| Criteria.Compare | panda-r2dbc-core/src/main/java/com/jxpanda/r2dbc/spring/data/core/enhance/query/criteria/EnhancedCriteria.java:723-766 | The binary comparisons refuse exactly a null value, and otherwise complete the step. |
| Criteria.InValues | panda-r2dbc-core/src/main/java/com/jxpanda/r2dbc/spring/data/core/enhance/query/criteria/EnhancedCriteria.java:659-670 | Refuses nulls, and refuses a collection passed beside other values. Otherwise the node holds the values as a list. |
| Criteria.InCollection | panda-r2dbc-core/src/main/java/com/jxpanda/r2dbc/spring/data/core/enhance/query/criteria/EnhancedCriteria.java:673-702 | Refuses exactly a collection with a null in it. Otherwise the node holds that collection, list or not, as it was given. |
| Criteria.Between | panda-r2dbc-core/src/main/java/com/jxpanda/r2dbc/spring/data/core/enhance/query/criteria/EnhancedCriteria.java:705-720 | Refuses a null bound, and otherwise holds the pair of bounds. |
| Criteria.IsNullStep | panda-r2dbc-core/src/main/java/com/jxpanda/r2dbc/spring/data/core/enhance/query/criteria/EnhancedCriteria.java:768-771 | Follows the step and renders as `column IS NULL`. |
| Criteria.IsNotNullStep | panda-r2dbc-core/src/main/java/com/jxpanda/r2dbc/spring/data/core/enhance/query/criteria/EnhancedCriteria.java:773-776 | Follows the step and renders as `column IS NOT NULL`. |
| Criteria.IsTrueStep | panda-r2dbc-core/src/main/java/com/jxpanda/r2dbc/spring/data/core/enhance/query/criteria/EnhancedCriteria.java:778-781 | Follows the step and renders as `column IS TRUE`. |
| Criteria.IsFalseStep | panda-r2dbc-core/src/main/java/com/jxpanda/r2dbc/spring/data/core/enhance/query/criteria/EnhancedCriteria.java:783-786 | Follows the step and renders as `column IS FALSE`. |
| Criteria.AndGroup | panda-r2dbc-core/src/main/java/com/jxpanda/r2dbc/spring/data/core/enhance/query/criteria/EnhancedCriteria.java:186-191 | A group node after the criteria, combined with AND unless they are empty, and empty exactly when every member is. |
| Criteria.OrGroup | panda-r2dbc-core/src/main/java/com/jxpanda/r2dbc/spring/data/core/enhance/query/criteria/EnhancedCriteria.java:247-252 | The same with OR. |
| Criteria.From | panda-r2dbc-core/src/main/java/com/jxpanda/r2dbc/spring/data/core/enhance/query/criteria/EnhancedCriteria.java:89-103 | No criteria give EMPTY and one gives itself. More are grouped after EMPTY. |
| Criteria.IgnoreCaseOnlyFlag | panda-r2dbc-core/src/main/java/com/jxpanda/r2dbc/spring/data/core/enhance/query/criteria/EnhancedCriteria.java:260-265 | Setting ignoreCase changes only that flag, and setting it to its own value changes nothing. |
| Criteria.RenderItems | panda-r2dbc-core/src/main/java/com/jxpanda/r2dbc/spring/data/core/enhance/query/criteria/EnhancedCriteria.java:484-489 | Renders each collection item in order. |
| Criteria.RenderValueQuotes | panda-r2dbc-core/src/main/java/com/jxpanda/r2dbc/spring/data/core/enhance/query/criteria/EnhancedCriteria.java:478-496 | Null renders as null. Any other non-number, non-collection value renders as its `toString()` between single quotes. |
| Criteria.NumberOperandReadsBack | panda-r2dbc-core/src/main/java/com/jxpanda/r2dbc/spring/data/core/enhance/query/criteria/EnhancedCriteria.java:480-482 | A number renders unquoted and parses back to itself. |
| Criteria.CollectionOperand | panda-r2dbc-core/src/main/java/com/jxpanda/r2dbc/spring/data/core/enhance/query/criteria/EnhancedCriteria.java:484-489 | A collection renders as its items joined by ", ". |
| Criteria.ToText | panda-r2dbc-core/src/main/java/com/jxpanda/r2dbc/spring/data/core/enhance/query/criteria/EnhancedCriteria.java:385-395 | Returns the text the chain renders to, and "" for empty criteria. |
| Criteria.Unroll | panda-r2dbc-core/src/main/java/com/jxpanda/r2dbc/spring/data/core/enhance/query/criteria/EnhancedCriteria.java:397-423 | The two loops (back to the first node, then forwards into the builder) give exactly the recursive rendering of the chain. |
| Criteria.Render | panda-r2dbc-core/src/main/java/com/jxpanda/r2dbc/spring/data/core/enhance/query/criteria/EnhancedCriteria.java:449-476 | Renders one node as its specification says: a group in parentheses, or `column comparator operand`. A node without column or comparator is a NullPointerException. |
| Criteria.UnrollGroup | panda-r2dbc-core/src/main/java/com/jxpanda/r2dbc/spring/data/core/enhance/query/criteria/EnhancedCriteria.java:425-447 | The group loop gives exactly the specification of the group text. |
| Criteria.GroupPartsStep | panda-r2dbc-core/src/main/java/com/jxpanda/r2dbc/spring/data/core/enhance/query/criteria/EnhancedCriteria.java:430-444 | One group member: an empty one adds nothing, a failing one fails, and any other adds a separator (except first) and its text. |
| Criteria.ExtendOk | panda-r2dbc-core/src/main/java/com/jxpanda/r2dbc/spring/data/core/enhance/query/criteria/EnhancedCriteria.java:411-421 | Extending the builder appends the separator and the node's text, or fails with the node's error. |
| Criteria.MakeKeepsChainWellBuilt | panda-r2dbc-core/src/main/java/com/jxpanda/r2dbc/spring/data/core/enhance/query/criteria/EnhancedCriteria.java:39-49 | Chains built through the constructor stay well built. |
| Criteria.EmptyChainUnrollsToNothing | panda-r2dbc-core/src/main/java/com/jxpanda/r2dbc/spring/data/core/enhance/query/criteria/EnhancedCriteria.java:385-423 | A well-built empty chain renders to "". |
| Criteria.GroupPartsOwner | panda-r2dbc-core/src/main/java/com/jxpanda/r2dbc/spring/data/core/enhance/query/criteria/EnhancedCriteria.java:425-447 | The group's text does not depend on which node owns the group. |
| Criteria.AfterEmptyActsAsFirst | panda-r2dbc-core/src/main/java/com/jxpanda/r2dbc/spring/data/core/enhance/query/criteria/EnhancedCriteria.java:39-60 | A node appended to empty criteria renders exactly as if it started the chain. |
| Criteria.FromGroupsWithAnd | panda-r2dbc-core/src/main/java/com/jxpanda/r2dbc/spring/data/core/enhance/query/criteria/EnhancedCriteria.java:89-103 | Several non-empty criteria render as their group in parentheses. |
| Criteria.NonEmptyMembers | panda-r2dbc-core/src/main/java/com/jxpanda/r2dbc/spring/data/core/enhance/query/criteria/EnhancedCriteria.java:432-434 | Keeps every non-empty member and nothing else, and is empty iff all members are. |
| Criteria.NonEmptyMember | panda-r2dbc-core/src/main/java/com/jxpanda/r2dbc/spring/data/core/enhance/query/criteria/EnhancedCriteria.java:432-434 | A single member is kept exactly when it is not empty. |
| Criteria.NonEmptyMembersAppend | panda-r2dbc-core/src/main/java/com/jxpanda/r2dbc/spring/data/core/enhance/query/criteria/EnhancedCriteria.java:432-434 | The filter distributes over concatenation, so the non-empty members keep their order and their repetitions. |
| Criteria.GroupSkipsEmptyMembers | panda-r2dbc-core/src/main/java/com/jxpanda/r2dbc/spring/data/core/enhance/query/criteria/EnhancedCriteria.java:430-435 | A group renders as its non-empty members alone. |
| Criteria.GroupOfTwo | panda-r2dbc-core/src/main/java/com/jxpanda/r2dbc/spring/data/core/enhance/query/criteria/EnhancedCriteria.java:436-440 | Two members render joined by " OR " for an OR member and " AND " otherwise. |
| MappingKit.IsAggregateEntity | panda-r2dbc-core/src/main/java/com/jxpanda/r2dbc/spring/data/core/kit/R2dbcMappingKit.java:76-84 | Only an entity with a `@TableEntity` annotation can be an aggregate. |
| MappingKit.VirtualPropertyExistsOnlyAsId | panda-r2dbc-core/src/main/java/com/jxpanda/r2dbc/spring/data/core/kit/R2dbcMappingKit.java:90-99 | A property without a real column is projected iff it is the id. A missing property never is. |
| MappingKit.Override | panda-r2dbc-core/src/main/java/com/jxpanda/r2dbc/spring/data/core/kit/R2dbcMappingKit.java:148-161 | A non-DEFAULT annotation policy overrides, and DEFAULT or none keeps the current strategy. |
| MappingKit.EffectiveStrategyPrecedence | panda-r2dbc-core/src/main/java/com/jxpanda/r2dbc/spring/data/core/kit/R2dbcMappingKit.java:134-166 | The strategy is the first non-DEFAULT of column, id, entity, then the global setting. It is DEFAULT only if the global one is. |
| MappingKit.ColumnPolicyWins | panda-r2dbc-core/src/main/java/com/jxpanda/r2dbc/spring/data/core/kit/R2dbcMappingKit.java:134-166 | A column NOT_NULL policy decides alone. A DEFAULT column policy defers. A missing property is never effective. |
| MappingKit.LogicProperty | panda-r2dbc-core/src/main/java/com/jxpanda/r2dbc/spring/data/core/kit/R2dbcMappingKit.java:186 | The first property with `@TableLogic`, or none iff no property has one. |
| MappingKit.LogicDeleteEnableRule | panda-r2dbc-core/src/main/java/com/jxpanda/r2dbc/spring/data/core/kit/R2dbcMappingKit.java:179-197 | Ignoring logic delete disables it. Otherwise the entity's `@TableLogic.enable` decides, or without one the global switch with a non-empty field. |
| MappingKit.LogicDeleteColumnSource | panda-r2dbc-core/src/main/java/com/jxpanda/r2dbc/spring/data/core/kit/R2dbcMappingKit.java:205-230 | With a `@TableLogic` property, the column is the first such property's name and the value is that annotation's delete or undelete value, unwrapped; without one, the global field and the global value, unwrapped. |
| MappingKit.FirstLogicIsUnique | panda-r2dbc-core/src/main/java/com/jxpanda/r2dbc/spring/data/core/kit/R2dbcMappingKit.java:205-207 | The found logic property is the first one marked. |
| MySqlErrors.CodeKindIsTable | mysql-connector/src/main/java/com/jxpanda/r2dbc/connector/mysql/message/server/ErrorMessage.java:71-116 | A code maps to an exception kind iff it is listed in that kind's code set. |
| MySqlErrors.ToOwnException | mysql-connector/src/main/java/com/jxpanda/r2dbc/connector/mysql/message/server/ErrorMessage.java:65-67 | `toException()` uses the message's own offending SQL. |
| MySqlErrors.CodeTableComesFirst | mysql-connector/src/main/java/com/jxpanda/r2dbc/connector/mysql/message/server/ErrorMessage.java:71-116 | A listed code decides the kind whatever the SQLSTATE, and keeps the state. |
| MySqlErrors.StateClassFallback | mysql-connector/src/main/java/com/jxpanda/r2dbc/connector/mysql/message/server/ErrorMessage.java:118-130 | An unlisted code falls back on the SQLSTATE class: 42 is bad grammar, 23 an integrity violation, 40 a rollback, and anything else non-transient without a state. |
| MySqlErrors.ExceptionCarriesMessage | mysql-connector/src/main/java/com/jxpanda/r2dbc/connector/mysql/message/server/ErrorMessage.java:79-130 | The exception keeps the message and code. Only bad grammar carries the statement. |
| MySqlErrors.OffendedBy | mysql-connector/src/main/java/com/jxpanda/r2dbc/connector/mysql/message/server/ErrorMessage.java:152-154 | Only the offending SQL changes, and only when one is given. |
| MySqlErrors.OffendedMessageNamesStatement | mysql-connector/src/main/java/com/jxpanda/r2dbc/connector/mysql/message/server/ErrorMessage.java:152-154 | A bad-grammar error with a statement attached reports that statement. |
| MySqlErrors.Equals | mysql-connector/src/main/java/com/jxpanda/r2dbc/connector/mysql/message/server/ErrorMessage.java:180-193 | Two messages are equal iff all their fields are. |
| MySqlErrors.DecodeAt | mysql-connector/src/main/java/com/jxpanda/r2dbc/connector/mysql/message/server/ErrorMessage.java:162-178 | A decoded message has a 16-bit code and no offending SQL. |
| MySqlErrors.DecodeEncode | mysql-connector/src/main/java/com/jxpanda/r2dbc/connector/mysql/message/server/ErrorMessage.java:162-178 | Decoding an encoded error packet gives back the message and stops before the message text. |
| MySqlErrors.EmptyMessageWithoutState | mysql-connector/src/main/java/com/jxpanda/r2dbc/connector/mysql/message/server/ErrorMessage.java:169 | A packet with only a header and a code fails on reading the '#' marker. |
| MySqlErrors.Decode | mysql-connector/src/main/java/com/jxpanda/r2dbc/connector/mysql/message/server/ErrorMessage.java:162-178 | The buffer decoding agrees with the specification and advances the reader index as it does. |
| DefinitionMetadata.NewMessage | mysql-connector/src/main/java/com/jxpanda/r2dbc/connector/mysql/message/server/DefinitionMetadataMessage.java:60-76 | Succeeds iff size >= 0, collation > 0 and table, column and definition are present. The checks run in the constructor's order. |
| DefinitionMetadata.ReadSizedString | mysql-connector/src/main/java/com/jxpanda/r2dbc/connector/mysql/message/server/DefinitionMetadataMessage.java:187-199 | Reading never moves backwards. |
| DefinitionMetadata.ZeroLengthIsEmpty | mysql-connector/src/main/java/com/jxpanda/r2dbc/connector/mysql/message/server/DefinitionMetadataMessage.java:191-193 | A zero length is the empty string. |
| DefinitionMetadata.NarrowedLength | mysql-connector/src/main/java/com/jxpanda/r2dbc/connector/mysql/message/server/DefinitionMetadataMessage.java:189 | The length is narrowed to int. Zero gives "" and a negative length fails. |
| DefinitionMetadata.ReadSizedStrings | mysql-connector/src/main/java/com/jxpanda/r2dbc/connector/mysql/message/server/DefinitionMetadataMessage.java:170-174 | Reads exactly the requested number of strings. |
| DefinitionMetadata.Fixed41At | mysql-connector/src/main/java/com/jxpanda/r2dbc/connector/mysql/message/server/DefinitionMetadataMessage.java:176-184 | The fixed 4.1 fields are within their byte widths. |
| DefinitionMetadata.Decode41At | mysql-connector/src/main/java/com/jxpanda/r2dbc/connector/mysql/message/server/DefinitionMetadataMessage.java:165-185 | A 4.1 definition has database and origins, and fields within their widths. |
| DefinitionMetadata.Fixed320At | mysql-connector/src/main/java/com/jxpanda/r2dbc/connector/mysql/message/server/DefinitionMetadataMessage.java:151-159 | The 3.20 size is a 3-byte value. |
| DefinitionMetadata.Decode320At | mysql-connector/src/main/java/com/jxpanda/r2dbc/connector/mysql/message/server/DefinitionMetadataMessage.java:145-163 | A 3.20 definition has no database or origins, and takes the connection's collation. It fails for a non-positive collation. |
| DefinitionMetadata.DecodeAt | mysql-connector/src/main/java/com/jxpanda/r2dbc/connector/mysql/message/server/DefinitionMetadataMessage.java:137-143 | Dispatches on the protocol: 4.1 or 3.20. |
| DefinitionMetadata.Decode41Encode41 | mysql-connector/src/main/java/com/jxpanda/r2dbc/connector/mysql/message/server/DefinitionMetadataMessage.java:165-185 | Decoding an encoded 4.1 definition gives it back, leaving the two filler bytes unread. |
| DefinitionMetadata.Decode320Encode320 | mysql-connector/src/main/java/com/jxpanda/r2dbc/connector/mysql/message/server/DefinitionMetadataMessage.java:145-163 | Decoding an encoded 3.20 definition gives it back. |
| DefinitionMetadata.Equals | mysql-connector/src/main/java/com/jxpanda/r2dbc/connector/mysql/message/server/DefinitionMetadataMessage.java:102-121 | Two messages are equal iff all their fields are. |
| DefinitionMetadata.ReadVarIntSizedString | mysql-connector/src/main/java/com/jxpanda/r2dbc/connector/mysql/message/server/DefinitionMetadataMessage.java:187-199 | The buffer read agrees with the specification and advances the reader index as it does. |
| DefinitionMetadata.ReadVarIntSizedStrings | mysql-connector/src/main/java/com/jxpanda/r2dbc/connector/mysql/message/server/DefinitionMetadataMessage.java:170-174 | The loop agrees with the counted read. |
| DefinitionMetadata.ReadNames41 | mysql-connector/src/main/java/com/jxpanda/r2dbc/connector/mysql/message/server/DefinitionMetadataMessage.java:170-174 | The buffer reads the five 4.1 names as specified. |
| DefinitionMetadata.ReadFixed41 | mysql-connector/src/main/java/com/jxpanda/r2dbc/connector/mysql/message/server/DefinitionMetadataMessage.java:176-184 | The buffer reads the fixed 4.1 fields as specified. |
| DefinitionMetadata.Decode41 | mysql-connector/src/main/java/com/jxpanda/r2dbc/connector/mysql/message/server/DefinitionMetadataMessage.java:165-185 | The buffer decoding agrees with the 4.1 specification. |
| DefinitionMetadata.ReadFixed320 | mysql-connector/src/main/java/com/jxpanda/r2dbc/connector/mysql/message/server/DefinitionMetadataMessage.java:151-159 | The buffer reads the fixed 3.20 fields as specified. |
| DefinitionMetadata.Decode320 | mysql-connector/src/main/java/com/jxpanda/r2dbc/connector/mysql/message/server/DefinitionMetadataMessage.java:145-163 | The buffer decoding agrees with the 3.20 specification. |
| DefinitionMetadata.Decode | mysql-connector/src/main/java/com/jxpanda/r2dbc/connector/mysql/message/server/DefinitionMetadataMessage.java:137-143 | The buffer decoding agrees with the protocol dispatch. |
| DefinitionMetadata.ReadsBackMany | mysql-connector/src/main/java/com/jxpanda/r2dbc/connector/mysql/message/server/DefinitionMetadataMessage.java:170-174 | Strings laid out one after another read back in order. |
| DefinitionMetadata.ReadFixedWritten | mysql-connector/src/main/java/com/jxpanda/r2dbc/connector/mysql/message/server/DefinitionMetadataMessage.java:176-184 | The encoded fixed fields read back. |
| ByteBufs.LittleEndianRoundTrip | mysql-connector/src/main/java/com/jxpanda/r2dbc/connector/mysql/message/server/ErrorMessage.java:165 | Little-endian bytes decode back to the value. |
| ByteBufs.ByteBuf.SkipBytes | mysql-connector/src/main/java/com/jxpanda/r2dbc/connector/mysql/message/server/ErrorMessage.java:163 | Skips when enough bytes remain, and otherwise fails with IndexOutOfBounds and leaves the index. |
| ByteBufs.ByteBuf.ReadUnsignedLE | mysql-connector/src/main/java/com/jxpanda/r2dbc/connector/mysql/message/server/ErrorMessage.java:165 | The byte loop reads the little-endian value as specified. |
| ByteBufs.ByteBuf.ReadShortLE | mysql-connector/src/main/java/com/jxpanda/r2dbc/connector/mysql/message/server/DefinitionMetadataMessage.java:181 | Reads a signed 16-bit value. |
| ByteBufs.ByteBuf.GetByteAt | mysql-connector/src/main/java/com/jxpanda/r2dbc/connector/mysql/message/server/ErrorMessage.java:169 | An absolute read that does not move the index. |
| ByteBufs.ByteBuf.ToStringAt | mysql-connector/src/main/java/com/jxpanda/r2dbc/connector/mysql/message/server/ErrorMessage.java:171 | Decodes the given range without moving the index. |
| ByteBufs.ByteBuf.ReadVarIntValue | mysql-connector/src/main/java/com/jxpanda/r2dbc/connector/mysql/message/server/DefinitionMetadataMessage.java:189 | Reads a length-encoded integer as specified. |
| ByteBufs.ReadVarIntWritten | mysql-connector/src/main/java/com/jxpanda/r2dbc/connector/mysql/message/server/DefinitionMetadataMessage.java:189 | An encoded length-encoded integer reads back. |
| SqlServerDialects.FilterBindMarker | panda-r2dbc-spring-data/src/main/java/com/jxpanda/r2dbc/spring/data/dialect/SqlServerDialect.java:43-62 | The character loop gives exactly the bind-marker specification. |
| SqlServerDialects.FilteredAppend | panda-r2dbc-spring-data/src/main/java/com/jxpanda/r2dbc/spring/data/dialect/SqlServerDialect.java:47-55 | Filtering distributes over concatenation. |
| SqlServerDialects.FilteredKept | panda-r2dbc-spring-data/src/main/java/com/jxpanda/r2dbc/spring/data/dialect/SqlServerDialect.java:52 | Only ASCII letters and digits survive. |
| SqlServerDialects.FilteredCounts | panda-r2dbc-spring-data/src/main/java/com/jxpanda/r2dbc/spring/data/dialect/SqlServerDialect.java:47-55 | Each kept character keeps its count, and the others vanish. |
| SqlServerDialects.FilteredKeeps | panda-r2dbc-spring-data/src/main/java/com/jxpanda/r2dbc/spring/data/dialect/SqlServerDialect.java:47-55 | A string of letters and digits passes unchanged. |
| SqlServerDialects.FilteredEmpty | panda-r2dbc-spring-data/src/main/java/com/jxpanda/r2dbc/spring/data/dialect/SqlServerDialect.java:57-59 | The filter is empty iff no character is kept. |
| SqlServerDialects.BindMarkerShape | panda-r2dbc-spring-data/src/main/java/com/jxpanda/r2dbc/spring/data/dialect/SqlServerDialect.java:57-61 | The marker is "" or "_" followed by letters and digits. |
| SqlServerDialects.BindMarkerEmpty | panda-r2dbc-spring-data/src/main/java/com/jxpanda/r2dbc/spring/data/dialect/SqlServerDialect.java:57-59 | The marker is "" iff no character is kept. |
| SqlServerDialects.BindMarkerIdempotent | panda-r2dbc-spring-data/src/main/java/com/jxpanda/r2dbc/spring/data/dialect/SqlServerDialect.java:43-62 | Filtering a marker again gives the same marker. |
| MySqlStatements.GeneratedKeyFor | mysql-connector/src/main/java/com/jxpanda/r2dbc/connector/mysql/MySqlStatementSupport.java:34-50 | No column names select LAST_INSERT_ID. One valid name selects itself. More than one is refused, and so are a null array or an invalid name. |
| MySqlStatements.StatementSupport.constructor | mysql-connector/src/main/java/com/jxpanda/r2dbc/connector/mysql/MySqlStatementSupport.java:30-31 | Starts without a generated key. |
| MySqlStatements.StatementSupport.ReturnGeneratedValues | mysql-connector/src/main/java/com/jxpanda/r2dbc/connector/mysql/MySqlStatementSupport.java:34-50 | Records the key that `GeneratedKeyFor` selects, or leaves the state unchanged on failure. |
| MySqlStatements.StatementSupport.FetchSize | mysql-connector/src/main/java/com/jxpanda/r2dbc/connector/mysql/MySqlStatementSupport.java:53-56 | Refuses a negative fetch size and otherwise returns the same statement. |
| MySqlStatements.ReturnGeneratedValuesTwice | mysql-connector/src/main/java/com/jxpanda/r2dbc/connector/mysql/MySqlStatementSupport.java:37-46 | A second call replaces the key when it succeeds, and otherwise the first key stays. |
| Naming.CamelParts | panda-r2dbc-core/src/main/java/com/jxpanda/r2dbc/spring/data/core/enhance/strategy/NamingStrategy.java:106-108 | Splitting yields at least one part. It cuts before an upper-case letter unless it follows an upper-case letter, "_" or "$", and always before an upper-case letter followed by a lower-case one. |
| Naming.CamelToSnake | panda-r2dbc-core/src/main/java/com/jxpanda/r2dbc/spring/data/core/enhance/strategy/NamingStrategy.java:106-108 | The converted name contains no upper-case letter. |
| Naming.CamelPartsAreWords | panda-r2dbc-core/src/main/java/com/jxpanda/r2dbc/spring/data/core/enhance/strategy/NamingStrategy.java:106-108 | When no upper-case letter follows an upper-case letter, "_" or "$", Spring's split cuts where `StringKit.snakeCase` does. |
| Naming.ConvertRules | panda-r2dbc-core/src/main/java/com/jxpanda/r2dbc/spring/data/core/enhance/strategy/NamingStrategy.java:32-40 | DEFAULT leaves names alone. Camel-to-snake agrees with `snakeCase` when no upper-case letter follows an upper-case letter, "_" or "$". Under that condition, for a name without "_" whose first character is not upper-case, snake-to-camel undoes camel-to-snake. |
| Naming.AcronymStaysWhole | panda-r2dbc-core/src/main/java/com/jxpanda/r2dbc/spring/data/core/enhance/strategy/NamingStrategy.java:106-108 | "myID" becomes "my_id" here but "my_i_d" through `StringKit.snakeCase`. |
| Naming.UnderscoreBeforeCapitalStaysWhole | panda-r2dbc-core/src/main/java/com/jxpanda/r2dbc/spring/data/core/enhance/strategy/NamingStrategy.java:106-108 | Spring does not cut "my_ID" after the "_": camel-to-snake gives "my_id" where `snakeCase` gives "my__i_d". |
| Naming.ColumnNamePrecedence | panda-r2dbc-core/src/main/java/com/jxpanda/r2dbc/spring/data/core/enhance/strategy/NamingStrategy.java:75-85 | `@TableId.name`, then `@TableColumn.alias`, then `@TableColumn.name`, then the converted property name. |
| Naming.PropertyColumnNamePrecedence | panda-r2dbc-core/src/main/java/com/jxpanda/r2dbc/spring/data/core/enhance/annotation/TableColumn.java:20-33 | The column Spring reads: a non-blank `@TableColumn.name` first, as `@Column`'s value, and otherwise the naming strategy's `getColumnName`. |
| Naming.HasAlias | panda-r2dbc-core/src/main/java/com/jxpanda/r2dbc/spring/data/core/convert/MappingReactiveConverter.java:440-443 | A property has an alias exactly when the strategy's name differs from Spring's column name, which needs a non-blank `@TableColumn.name`. |
| Naming.TableNameRule | panda-r2dbc-core/src/main/java/com/jxpanda/r2dbc/spring/data/core/enhance/strategy/NamingStrategy.java:57-65 | `@TableEntity.name` when set, and otherwise the converted class name. |
| Naming.CacheKey | panda-r2dbc-core/src/main/java/com/jxpanda/r2dbc/spring/data/core/enhance/strategy/NamingStrategy.java:91-93 | The cache key is owner + separator + field name. A property without a field is a NullPointerException. |
| Naming.NamingStrategy.constructor | panda-r2dbc-core/src/main/java/com/jxpanda/r2dbc/spring/data/core/enhance/strategy/NamingStrategy.java:47 | Starts with an empty cache. |
| Naming.NamingStrategy.Schema | panda-r2dbc-core/src/main/java/com/jxpanda/r2dbc/spring/data/core/enhance/strategy/NamingStrategy.java:51-53 | The schema is empty. |
| Naming.NamingStrategy.GetColumnName | panda-r2dbc-core/src/main/java/com/jxpanda/r2dbc/spring/data/core/enhance/strategy/NamingStrategy.java:70-89 | A cached name is returned unchanged. Otherwise the computed name is returned and cached under its key. A property without a field fails and leaves the cache. |
| Naming.GetColumnNameTwice | panda-r2dbc-core/src/main/java/com/jxpanda/r2dbc/spring/data/core/enhance/strategy/NamingStrategy.java:70-89 | Two calls agree, and a first call computes the column name. |
| Plugins.EveryNameListed | panda-r2dbc-core/src/main/java/com/jxpanda/r2dbc/spring/data/core/enhance/plugin/R2dbcPluginName.java:17 | Every plugin name is in the list of names. |
| Plugins.NameOf | panda-r2dbc-core/src/main/java/com/jxpanda/r2dbc/spring/data/core/enhance/plugin/R2dbcPluginName.java:17 | Plugin names are non-empty. |
| Plugins.PluginContext.constructor | panda-r2dbc-core/src/main/java/com/jxpanda/r2dbc/spring/data/core/enhance/plugin/R2dbcPluginContext.java:15-42 | Keeps its arguments, and starts unexecuted without a result. |
| Plugins.PluginContext.TakeResultWith | panda-r2dbc-core/src/main/java/com/jxpanda/r2dbc/spring/data/core/enhance/plugin/R2dbcPluginContext.java:56-62 | Nothing comes out before execution. |
| Plugins.PluginContext.TakeResult | panda-r2dbc-core/src/main/java/com/jxpanda/r2dbc/spring/data/core/enhance/plugin/R2dbcPluginContext.java:52-54 | Nothing before execution, and the stored result after it. |
| Plugins.PluginContext.Execute | panda-r2dbc-core/src/main/java/com/jxpanda/r2dbc/spring/data/core/enhance/plugin/R2dbcPluginContext.java:46-50 | Marks the context executed and stores what the plugin produced. |
| Plugins.LogicDeleteEnabledRule | panda-r2dbc-core/src/main/java/com/jxpanda/r2dbc/spring/data/core/enhance/plugin/R2DbcLogicDeletePlugin.java:67-80 | The entity's `@TableLogic.enable` decides, or else the global switch with a non-empty field. |
| Plugins.HandleUpdate | panda-r2dbc-core/src/main/java/com/jxpanda/r2dbc/spring/data/core/enhance/plugin/R2DbcLogicDeletePlugin.java:36-40 | A delete becomes an update that sets the logic column to the deleted value, whether or not logic deletion is enabled. `Update.update` refuses exactly a blank column, with an IllegalArgumentException. |
| Plugins.HandleUpdateIgnoresEnable | panda-r2dbc-core/src/main/java/com/jxpanda/r2dbc/spring/data/core/enhance/plugin/R2DbcLogicDeletePlugin.java:36-40 | As written, an entity without `@TableLogic` under a disabled configuration is refused when the field is the default "". With a field named, its delete still becomes an update. |
| Plugins.HandleUpdateCorrectedRule | panda-r2dbc-core/src/main/java/com/jxpanda/r2dbc/spring/data/core/enhance/plugin/R2DbcLogicDeletePlugin.java:36-40 | Corrected: no update exactly when logic deletion is disabled, so the default configuration never fails. When enabled, the delete update of the logic column, refused exactly for a blank column. |
| Plugins.Condition | panda-r2dbc-core/src/main/java/com/jxpanda/r2dbc/spring/data/core/enhance/plugin/R2DbcLogicDeletePlugin.java:49-52 | "field = value" is refused exactly for a blank field or a null value. |
| Plugins.HandleCriteriaCases | panda-r2dbc-core/src/main/java/com/jxpanda/r2dbc/spring/data/core/enhance/plugin/R2DbcLogicDeletePlugin.java:42-56 | Disabled, or criteria of another kind: returned unchanged (EMPTY when none). Enabled: the same kind extended by one AND group holding "column = undeleted value". |
| Plugins.EmptyCriteriaGetsInitialGroup | panda-r2dbc-core/src/main/java/com/jxpanda/r2dbc/spring/data/core/enhance/plugin/R2DbcLogicDeletePlugin.java:44-49 | Without earlier criteria, the group starts a Spring chain with INITIAL. |
| Plugins.OperationPlugin.constructor | panda-r2dbc-core/src/main/java/com/jxpanda/r2dbc/spring/data/core/enhance/plugin/R2dbcOperationPlugin.java:19-23 | Keeps group and name, with sort 0. |
| Plugins.OperationPlugin.LogicDelete | panda-r2dbc-core/src/main/java/com/jxpanda/r2dbc/spring/data/core/enhance/plugin/R2DbcLogicDeletePlugin.java:21-23 | The logic-delete plugin is named and grouped after LOGIC_DELETE. |
| Plugins.OperationPlugin.SetSort | panda-r2dbc-core/src/main/java/com/jxpanda/r2dbc/spring/data/core/enhance/plugin/R2dbcOperationPlugin.java:16-17 | Sets the sort. |
| Plugins.OperationPlugin.PlugInto | panda-r2dbc-core/src/main/java/com/jxpanda/r2dbc/spring/data/core/enhance/plugin/R2DbcLogicDeletePlugin.java:25-34 | An update context gets the delete update, and fails exactly when `handleUpdate` does. A criteria context gets the extended criteria. Any other type is untouched. A non-criteria last result is a ClassCastException. |
| Plugins.OperationPlugin.Apply | panda-r2dbc-core/src/main/java/com/jxpanda/r2dbc/spring/data/core/enhance/plugin/R2dbcOperationPlugin.java:25-30 | A disabled context is returned untouched. An enabled update context gets the logic-delete update, or fails with the context unchanged for a blank column. A criteria context gets the condition or fails on a failed criteria, and any other context is returned as it is. |
| Plugins.LastCriteria | panda-r2dbc-core/src/main/java/com/jxpanda/r2dbc/spring/data/core/enhance/plugin/R2DbcLogicDeletePlugin.java:42-44 | The cast fails exactly on a result that is not criteria. |
| Plugins.PluginExecutor.constructor | panda-r2dbc-core/src/main/java/com/jxpanda/r2dbc/spring/data/core/enhance/plugin/R2dbcPluginExecutor.java:18-20 | Starts without plugins. |
| Plugins.PluginExecutor.AddPlugin | panda-r2dbc-core/src/main/java/com/jxpanda/r2dbc/spring/data/core/enhance/plugin/R2dbcPluginExecutor.java:22-25 | Registers the plugin under its name, replacing any earlier one. |
| Plugins.PluginExecutor.RemovePlugin | panda-r2dbc-core/src/main/java/com/jxpanda/r2dbc/spring/data/core/enhance/plugin/R2dbcPluginExecutor.java:27-29 | Forgets the plugin of that name. |
| Plugins.PluginExecutor.GetPlugin | panda-r2dbc-core/src/main/java/com/jxpanda/r2dbc/spring/data/core/enhance/plugin/R2dbcPluginExecutor.java:31-33 | Finds a plugin iff one is registered under the name. |
| Plugins.PluginExecutor.Run | panda-r2dbc-core/src/main/java/com/jxpanda/r2dbc/spring/data/core/enhance/plugin/R2dbcPluginExecutor.java:35-37 | A missing plugin is a NullPointerException. Otherwise the plugin is applied, with the same outcome per context kind as `Apply`. |
| Plugins.AddReplaceRemove | panda-r2dbc-core/src/main/java/com/jxpanda/r2dbc/spring/data/core/enhance/plugin/R2dbcPluginExecutor.java:22-33 | Add, replace and remove behave as a map keyed by name. |
| Plugins.OperationOption.constructor | panda-r2dbc-core/src/main/java/com/jxpanda/r2dbc/spring/data/core/operation/executor/R2dbcOperationOption.java:25-27 | Every plugin starts enabled. |
| Plugins.OperationOption.WithReference | panda-r2dbc-core/src/main/java/com/jxpanda/r2dbc/spring/data/core/operation/executor/R2dbcOperationOption.java:29-33 | Keeps the reference flag, and every plugin is enabled. |
| Plugins.OperationOption.IsPluginEnable | panda-r2dbc-core/src/main/java/com/jxpanda/r2dbc/spring/data/core/operation/executor/R2dbcOperationOption.java:35-37 | Answers the switch of the plugin. |
| Plugins.OperationOption.DisablePlugin | panda-r2dbc-core/src/main/java/com/jxpanda/r2dbc/spring/data/core/operation/executor/R2dbcOperationOption.java:39-41 | Turns that switch off. |
| Plugins.OperationOption.EnablePlugin | panda-r2dbc-core/src/main/java/com/jxpanda/r2dbc/spring/data/core/operation/executor/R2dbcOperationOption.java:43-45 | Turns that switch on. |
| Plugins.ToggleRoundTrip | panda-r2dbc-core/src/main/java/com/jxpanda/r2dbc/spring/data/core/operation/executor/R2dbcOperationOption.java:25-45 | Enabled, then disabled, then enabled again. |
| TwoKeyCache.TwoKeyMap.constructor | panda-r2dbc-core/src/main/java/com/jxpanda/r2dbc/spring/data/core/enhance/handler/TwoKeyMap.java:11 | Starts empty. |
| TwoKeyCache.TwoKeyMap.Get | panda-r2dbc-core/src/main/java/com/jxpanda/r2dbc/spring/data/core/enhance/handler/TwoKeyMap.java:13-15 | A missing first key is a NullPointerException. Otherwise it gives the value under both keys, if any. |
| TwoKeyCache.TwoKeyMap.GetOrDefault | panda-r2dbc-core/src/main/java/com/jxpanda/r2dbc/spring/data/core/enhance/handler/TwoKeyMap.java:17-20 | An existing value is returned. Otherwise the default is stored and returned. |
| TwoKeyCache.TwoKeyMap.GetOrCreate | panda-r2dbc-core/src/main/java/com/jxpanda/r2dbc/spring/data/core/enhance/handler/TwoKeyMap.java:22-25 | An existing value is returned. Otherwise the creator's value is stored and returned. |
| TwoKeyCache.TwoKeyMap.GetLevelOneCache | panda-r2dbc-core/src/main/java/com/jxpanda/r2dbc/spring/data/core/enhance/handler/TwoKeyMap.java:31-33 | Returns the inner map, creating an empty one when missing. |
| TwoKeyCache.TwoKeyMap.GetOrCreateLevelOneCache | panda-r2dbc-core/src/main/java/com/jxpanda/r2dbc/spring/data/core/enhance/handler/TwoKeyMap.java:35-37 | Returns the inner map, or stores the creator's map. |
| TwoKeyCache.TwoKeyMap.Put | panda-r2dbc-core/src/main/java/com/jxpanda/r2dbc/spring/data/core/enhance/handler/TwoKeyMap.java:39-41 | Stores the value under both keys and leaves other entries. |
| TwoKeyCache.PutThenGet | panda-r2dbc-core/src/main/java/com/jxpanda/r2dbc/spring/data/core/enhance/handler/TwoKeyMap.java:13-41 | What is put is what is read back and created. |
| TypeHandlers.ResolvedClassRule | panda-r2dbc-core/src/main/java/com/jxpanda/r2dbc/spring/data/core/enhance/handler/R2dbcCustomTypeHandlers.java:31-72 | The DEFAULT marker resolves to the enum handler for enums, else to the JSON handler for JSON columns. It resolves to a real handler iff the property needs one. |
| TypeHandlers.ExplicitClassIsKept | panda-r2dbc-core/src/main/java/com/jxpanda/r2dbc/spring/data/core/enhance/handler/R2dbcCustomTypeHandlers.java:64-72 | An explicit handler class is used as it is. |
| TypeHandlers.HandlerFor | panda-r2dbc-core/src/main/java/com/jxpanda/r2dbc/spring/data/core/enhance/handler/R2dbcCustomTypeHandlers.java:62-74 | No `@TableColumn` is an IllegalStateException. Otherwise the handler registered under the resolved class, or none. |
| TypeHandlers.Write | panda-r2dbc-core/src/main/java/com/jxpanda/r2dbc/spring/data/core/enhance/handler/R2dbcCustomTypeHandlers.java:53-59 | Null is written as null, and a value without `@TableColumn` fails. |
| TypeHandlers.Read | panda-r2dbc-core/src/main/java/com/jxpanda/r2dbc/spring/data/core/enhance/handler/R2dbcCustomTypeHandlers.java:49-51 | Reading without `@TableColumn` fails. |
| TypeHandlers.WriteReadDispatch | panda-r2dbc-core/src/main/java/com/jxpanda/r2dbc/spring/data/core/enhance/handler/R2dbcCustomTypeHandlers.java:49-74 | The registered handler reads and writes, and a missing one is a NullPointerException. |
| TypeHandlers.DefaultRegistry | panda-r2dbc-core/src/main/java/com/jxpanda/r2dbc/spring/data/core/enhance/handler/R2dbcCustomTypeHandlers.java:21-25 | Registers exactly the enum and JSON handlers. |
| TypeHandlers.DefaultRegistryServes | panda-r2dbc-core/src/main/java/com/jxpanda/r2dbc/spring/data/core/enhance/handler/R2dbcCustomTypeHandlers.java:21-74 | Every property needing an enum or JSON handler finds it. |
| TypeHandlers.ListRegistryLosesJson | panda-r2dbc-core/src/main/java/com/jxpanda/r2dbc/spring/data/core/enhance/handler/R2dbcCustomTypeHandlers.java:27-29 | As written, given the default pair, the list constructor files the Jackson handler under its runtime class, and a JSON column write dereferences null. |
| TypeHandlers.ListRegistryContents | panda-r2dbc-core/src/main/java/com/jxpanda/r2dbc/spring/data/core/enhance/handler/R2dbcCustomTypeHandlers.java:27-29 | The corrected registry files each handler under its registration class. It fails only on duplicates. |
| TypeHandlers.ListRegistryServes | panda-r2dbc-core/src/main/java/com/jxpanda/r2dbc/spring/data/core/enhance/handler/R2dbcCustomTypeHandlers.java:27-29 | The corrected registry serves enum and JSON properties. |
| TypeHandlers.ListRegistryOfDefaultPair | panda-r2dbc-core/src/main/java/com/jxpanda/r2dbc/spring/data/core/enhance/handler/R2dbcCustomTypeHandlers.java:21-29 | The corrected list constructor given the default pair is the default registry. |
| TypeHandlers.RegistrationClass | panda-r2dbc-core/src/main/java/com/jxpanda/r2dbc/spring/data/core/enhance/handler/R2dbcCustomTypeHandlers.java:27-29 | JSON handler subclasses register as the JSON handler, and other classes as themselves. |
| TypeHandlers.CustomTypeHandlers.Default | panda-r2dbc-core/src/main/java/com/jxpanda/r2dbc/spring/data/core/enhance/handler/R2dbcCustomTypeHandlers.java:21-25 | The no-argument constructor holds the default registry. |
| TypeHandlers.CustomTypeHandlers.FromList | panda-r2dbc-core/src/main/java/com/jxpanda/r2dbc/spring/data/core/enhance/handler/R2dbcCustomTypeHandlers.java:27-29 | Fails iff keys clash, and otherwise holds the list registry. |
| EnumHandling.EnumValueField | panda-r2dbc-core/src/main/java/com/jxpanda/r2dbc/spring/data/core/enhance/handler/R2dbcEnumTypeHandler.java:30-33 | The first field marked `@EnumValue`: it is marked and no field before it is; none iff no field is marked. |
| EnumHandling.WriterPriority | panda-r2dbc-core/src/main/java/com/jxpanda/r2dbc/spring/data/core/enhance/handler/R2dbcEnumTypeHandler.java:21-41 | A standard enum's code first, then the value of the first `@EnumValue` field, then the ordinal. |
| EnumHandling.EnumMapContents | panda-r2dbc-core/src/main/java/com/jxpanda/r2dbc/spring/data/core/enhance/handler/R2dbcEnumTypeHandler.java:54-57 | The built map holds exactly the written forms, each mapping back to its constant. |
| EnumHandling.DistinctWhenBuilt | panda-r2dbc-core/src/main/java/com/jxpanda/r2dbc/spring/data/core/enhance/handler/R2dbcEnumTypeHandler.java:56-57 | When the map builds, distinct constants have distinct non-null keys. |
| EnumHandling.Read | panda-r2dbc-core/src/main/java/com/jxpanda/r2dbc/spring/data/core/enhance/handler/R2dbcEnumTypeHandler.java:45-52 | Reading null is a NullPointerException. |
| EnumHandling.ReadOfWrite | panda-r2dbc-core/src/main/java/com/jxpanda/r2dbc/spring/data/core/enhance/handler/R2dbcEnumTypeHandler.java:21-57 | Reading what was written gives back the constant. |
| EnumHandling.UnknownFallsBackToZero | panda-r2dbc-core/src/main/java/com/jxpanda/r2dbc/spring/data/core/enhance/handler/R2dbcEnumTypeHandler.java:49-52 | An unknown value reads as the "0" constant, or as null when there is none. |
| EnumHandling.EnumTypeHandler.constructor | panda-r2dbc-core/src/main/java/com/jxpanda/r2dbc/spring/data/core/enhance/handler/R2dbcEnumTypeHandler.java:18 | Starts with an empty cache. |
| EnumHandling.EnumTypeHandler.GetEnumMap | panda-r2dbc-core/src/main/java/com/jxpanda/r2dbc/spring/data/core/enhance/handler/R2dbcEnumTypeHandler.java:54-58 | Returns the built map and caches it, or fails without caching. |
| EnumHandling.EnumTypeHandler.ReadValue | panda-r2dbc-core/src/main/java/com/jxpanda/r2dbc/spring/data/core/enhance/handler/R2dbcEnumTypeHandler.java:45-52 | Agrees with `Read`. |
| Seeker.Bounds | panda-r2dbc-core/src/main/java/com/jxpanda/r2dbc/spring/data/core/enhance/query/seeker/domain/Rule.java:51-58 | The bounds are the first two items of a list of at least two. Anything that is not a list, a set among them, fails the cast with a ClassCastException. |
| Seeker.NullParamFallback | panda-r2dbc-core/src/main/java/com/jxpanda/r2dbc/spring/data/core/enhance/query/seeker/domain/Rule.java:19-33 | Only EQ and NE accept a null parameter. |
| Seeker.NullParameterCases | panda-r2dbc-core/src/main/java/com/jxpanda/r2dbc/spring/data/core/enhance/query/seeker/domain/RuleFunction.java:12-21 | With a null parameter, EQ means IS NULL and NE means IS NOT NULL. Every other rule is unsupported. |
| Seeker.NonNullParameterCases | panda-r2dbc-core/src/main/java/com/jxpanda/r2dbc/spring/data/core/enhance/query/seeker/domain/Rule.java:19-58 | Comparisons complete the step. LIKE wraps the value in %. IN takes a list or a singleton. BETWEEN needs two non-null bounds. |
| Seeker.NewProbe | panda-r2dbc-core/src/main/java/com/jxpanda/r2dbc/spring/data/core/enhance/query/seeker/Probe.java:73-82 | Null arguments default: field and key to "", rule to EQ, extension to NONE, synapse to AND. |
| Seeker.GetField | panda-r2dbc-core/src/main/java/com/jxpanda/r2dbc/spring/data/core/enhance/query/seeker/Probe.java:84-87 | The field, snake-cased when asked. |
| Seeker.ApplyChains | panda-r2dbc-core/src/main/java/com/jxpanda/r2dbc/spring/data/core/enhance/query/seeker/Probe.java:89-97 | On empty criteria the probe starts a chain. Otherwise it continues the chain with its synapse, on its field. |
| Seeker.KeptProbes | panda-r2dbc-core/src/main/java/com/jxpanda/r2dbc/spring/data/core/enhance/query/seeker/Seeker.java:146 | Keeps only probes that are kept, and only probes given. |
| Seeker.KeptProbesKeepsAll | panda-r2dbc-core/src/main/java/com/jxpanda/r2dbc/spring/data/core/enhance/query/seeker/Seeker.java:146 | Every kept probe survives. |
| Seeker.FoldSteps | panda-r2dbc-core/src/main/java/com/jxpanda/r2dbc/spring/data/core/enhance/query/seeker/Seeker.java:143-150 | The fold starts from EMPTY, the first probe starts the chain, and each later one continues it. |
| Seeker.OrderOf | panda-r2dbc-core/src/main/java/com/jxpanda/r2dbc/spring/data/core/enhance/query/seeker/Sorter.java:27-33 | Fails with IllegalArgumentException iff the field is blank. Otherwise orders on the field, descending iff the sorting is a DESC spelling. |
| Seeker.SortOf | panda-r2dbc-core/src/main/java/com/jxpanda/r2dbc/spring/data/core/enhance/query/seeker/Seeker.java:152-159 | With no sorter, `id` descending. Otherwise one order per sorter, and it fails iff some sorter's field is blank. |
| Seeker.WithoutField | panda-r2dbc-core/src/main/java/com/jxpanda/r2dbc/spring/data/core/enhance/query/seeker/Seeker.java:64-66 | Removes the entries on that field and keeps only given entries. |
| Seeker.WithoutFieldKeepsOthers | panda-r2dbc-core/src/main/java/com/jxpanda/r2dbc/spring/data/core/enhance/query/seeker/Seeker.java:64-66 | Entries on other fields survive. |
| Seeker.WithoutAbsentField | panda-r2dbc-core/src/main/java/com/jxpanda/r2dbc/spring/data/core/enhance/query/seeker/Seeker.java:121-123 | Removing an absent field changes nothing. |
| Seeker.QueryOf | panda-r2dbc-core/src/main/java/com/jxpanda/r2dbc/spring/data/core/enhance/query/seeker/Seeker.java:141-164 | Succeeds iff the fold, every sorter and the page build. A blank sorter field fails with the sort's message. The query holds the folded criteria, the sort, and the page's size and offset. |
| Seeker.BlankSorterFails | panda-r2dbc-core/src/main/java/com/jxpanda/r2dbc/spring/data/core/enhance/query/seeker/Sorter.java:27-33 | A seeker with a blank sorter field fails to build its query, whatever its probes. |
| Seeker.DefaultQuery | panda-r2dbc-core/src/main/java/com/jxpanda/r2dbc/spring/data/core/enhance/query/seeker/Seeker.java:152-163 | By default, `id` descending with limit 10 and offset 0. |
| Seeker.FirstWithField | panda-r2dbc-core/src/main/java/com/jxpanda/r2dbc/spring/data/core/enhance/query/seeker/Seeker.java:54-59 | The first probe on that field, or a fresh EQ probe. |
| Seeker.Seeker.constructor | panda-r2dbc-core/src/main/java/com/jxpanda/r2dbc/spring/data/core/enhance/query/seeker/Seeker.java:37-41 | Starts without probes or sorters, on the default page. |
| Seeker.Seeker.TakePageable | panda-r2dbc-core/src/main/java/com/jxpanda/r2dbc/spring/data/core/enhance/query/seeker/Seeker.java:46-48 | Builds the 0-based page request. |
| Seeker.Seeker.GetProbe | panda-r2dbc-core/src/main/java/com/jxpanda/r2dbc/spring/data/core/enhance/query/seeker/Seeker.java:54-59 | The first probe on that field, or a fresh EQ probe. |
| Seeker.Seeker.RemoveProbe | panda-r2dbc-core/src/main/java/com/jxpanda/r2dbc/spring/data/core/enhance/query/seeker/Seeker.java:64-66 | Removes every probe on the field. |
| Seeker.Seeker.AddProbe | panda-r2dbc-core/src/main/java/com/jxpanda/r2dbc/spring/data/core/enhance/query/seeker/Seeker.java:84-87 | Appends the probe. |
| Seeker.Seeker.AddRuleProbe | panda-r2dbc-core/src/main/java/com/jxpanda/r2dbc/spring/data/core/enhance/query/seeker/Seeker.java:89-97 | Appends a probe of that rule. |
| Seeker.Seeker.Eq | panda-r2dbc-core/src/main/java/com/jxpanda/r2dbc/spring/data/core/enhance/query/seeker/Seeker.java:72-74 | Appends an EQ probe. |
| Seeker.Seeker.Gt | panda-r2dbc-core/src/main/java/com/jxpanda/r2dbc/spring/data/core/enhance/query/seeker/Seeker.java:80-82 | Appends a GT probe. |
| Seeker.Seeker.AddSorter | panda-r2dbc-core/src/main/java/com/jxpanda/r2dbc/spring/data/core/enhance/query/seeker/Seeker.java:130-133 | Appends the sorter. |
| Seeker.Seeker.SetSorter | panda-r2dbc-core/src/main/java/com/jxpanda/r2dbc/spring/data/core/enhance/query/seeker/Seeker.java:104-116 | Re-sorts the matching sorters, or appends one when none matches. |
| Seeker.Seeker.RemoveSorter | panda-r2dbc-core/src/main/java/com/jxpanda/r2dbc/spring/data/core/enhance/query/seeker/Seeker.java:121-124 | Removes the sorters on the field. |
| Seeker.Seeker.BuildQuery | panda-r2dbc-core/src/main/java/com/jxpanda/r2dbc/spring/data/core/enhance/query/seeker/Seeker.java:141-164 | Gives the specified query and leaves the probes rewritten by their extension. |
| SelectSupport.PageTotal | panda-r2dbc-core/src/main/java/com/jxpanda/r2dbc/spring/data/core/operation/support/R2dbcSelectOperationSupport.java:251-266 | Counts when needed, otherwise offset + records. Unpaged has no total. |
| SelectSupport.ShortPageTotalIsExact | panda-r2dbc-core/src/main/java/com/jxpanda/r2dbc/spring/data/core/operation/support/R2dbcSelectOperationSupport.java:256-266 | A short last page gives the exact total without counting. |
| SelectSupport.PageOf | panda-r2dbc-core/src/main/java/com/jxpanda/r2dbc/spring/data/core/operation/support/R2dbcSelectOperationSupport.java:245-271 | A paged request gives a page of the records with the computed total, and an unpaged one fails. |
| SelectSupport.PageOfTotals | panda-r2dbc-core/src/main/java/com/jxpanda/r2dbc/spring/data/core/operation/support/R2dbcSelectOperationSupport.java:251-266 | A short page's total is offset + records. A full page takes the count unless the count ends before this page, then offset + records. |
| SelectSupport.TerminalLimit | panda-r2dbc-core/src/main/java/com/jxpanda/r2dbc/spring/data/core/operation/support/R2dbcSelectOperationSupport.java:160-182 | `first`, `one` and `exists` limit the query to one row. `all` keeps the query's limit. |
| SelectSupport.Limited | panda-r2dbc-core/src/main/java/com/jxpanda/r2dbc/spring/data/core/operation/support/R2dbcSelectOperationSupport.java:160-182 | A prefix of the rows, of the limit's length when there are enough. |
| SelectSupport.FirstRow | panda-r2dbc-core/src/main/java/com/jxpanda/r2dbc/spring/data/core/operation/support/R2dbcSelectOperationSupport.java:161 | The first row iff there is one. |
| SelectSupport.OneRow | panda-r2dbc-core/src/main/java/com/jxpanda/r2dbc/spring/data/core/operation/support/R2dbcSelectOperationSupport.java:171 | Fails with IncorrectResultSizeDataAccessException iff more than one row came back. Otherwise the row, if any. |
| SelectSupport.ExistsProjection | panda-r2dbc-core/src/main/java/com/jxpanda/r2dbc/spring/data/core/operation/support/R2dbcSelectOperationSupport.java:209 | The id property's column, or `*` without an id. |
| SelectSupport.TerminalResults | panda-r2dbc-core/src/main/java/com/jxpanda/r2dbc/spring/data/core/operation/support/R2dbcSelectOperationSupport.java:160-216 | `first` gives the first row. `one` never fails, because of its limit. `exists` holds iff a row came back. `all` keeps the query's limit. |
| SelectSupport.CountOf | panda-r2dbc-core/src/main/java/com/jxpanda/r2dbc/spring/data/core/operation/support/R2dbcSelectOperationSupport.java:230 | The count is the first row's value, or 0. |
| SelectExecutors.ColumnExpression | panda-r2dbc-core/src/main/java/com/jxpanda/r2dbc/spring/data/core/operation/executor/R2dbcSelectExecutor.java:226-244 | A dotted name goes out verbatim. Any other is qualified with its table. The alias is appended either way. |
| SelectExecutors.CreateColumn | panda-r2dbc-core/src/main/java/com/jxpanda/r2dbc/spring/data/core/operation/executor/R2dbcSelectExecutor.java:221-247 | An id is the table's column under Spring's column name. Any other property needs `@TableColumn`, or fails with IllegalStateException. |
| SelectExecutors.CreateColumnReadsNamedColumn | panda-r2dbc-core/src/main/java/com/jxpanda/r2dbc/spring/data/core/operation/executor/R2dbcSelectExecutor.java:221-247 | Reads a non-blank `@TableColumn.name` as the column. Without one it reads the alias, and without either the converted property name. |
| SelectExecutors.AliasedExamples | panda-r2dbc-core/src/main/java/com/jxpanda/r2dbc/spring/data/core/operation/executor/R2dbcSelectExecutor.java:221-247 | `subContent` selects `sub_table.content AS subContent`, and the `itemId` property selects `order_item.id AS itemId`. |
| SelectExecutors.CreateFunction | panda-r2dbc-core/src/main/java/com/jxpanda/r2dbc/spring/data/core/operation/executor/R2dbcSelectExecutor.java:249-269 | A function needs an alias and becomes `function(name) AS alias`, and a plain column goes out verbatim. |
| SelectExecutors.ExistingProperties | panda-r2dbc-core/src/main/java/com/jxpanda/r2dbc/spring/data/core/operation/executor/R2dbcSelectExecutor.java:215-216 | Keeps exactly the properties that exist. |
| SelectExecutors.SelectProjection | panda-r2dbc-core/src/main/java/com/jxpanda/r2dbc/spring/data/core/operation/executor/R2dbcSelectExecutor.java:196-219 | Query columns or a closed projection's properties select table columns. |
| SelectExecutors.ExpressionsAll | panda-r2dbc-core/src/main/java/com/jxpanda/r2dbc/spring/data/core/operation/executor/R2dbcSelectExecutor.java:215-218 | Succeeds iff every property does, giving one expression each. |
| SelectExecutors.EntityProjectionSucceeds | panda-r2dbc-core/src/main/java/com/jxpanda/r2dbc/spring/data/core/operation/executor/R2dbcSelectExecutor.java:213-218 | A plain entity projects one column per existing property, each under Spring's column name. |
| SelectExecutors.AggregateProjectionRule | panda-r2dbc-core/src/main/java/com/jxpanda/r2dbc/spring/data/core/operation/executor/R2dbcSelectExecutor.java:213-218 | An aggregate fails iff some existing property cannot be projected. |
| SelectExecutors.SplitExamples | panda-r2dbc-core/src/main/java/com/jxpanda/r2dbc/spring/data/core/operation/executor/R2dbcSelectExecutor.java:291 | "a,b,," splits to [a, b], "," to [], and "" to [""]. |
| SelectExecutors.ReferenceKey | panda-r2dbc-core/src/main/java/com/jxpanda/r2dbc/spring/data/core/operation/executor/R2dbcSelectExecutor.java:278-288 | The id, or the property named by `keyColumn`, with a field. A missing one is an IllegalArgumentException. |
| SelectExecutors.ReferenceValue | panda-r2dbc-core/src/main/java/com/jxpanda/r2dbc/spring/data/core/operation/executor/R2dbcSelectExecutor.java:289-292 | Only strings with a delimiter are split. The array holds the pieces, which join back to the string, less the trailing empty ones. |
| SelectExecutors.EffectiveCondition | panda-r2dbc-core/src/main/java/com/jxpanda/r2dbc/spring/data/core/operation/executor/R2dbcSelectExecutor.java:302-305 | Collections and arrays use IN. Other values use the annotation's condition. |
| SelectExecutors.ReferenceCriteria | panda-r2dbc-core/src/main/java/com/jxpanda/r2dbc/spring/data/core/operation/executor/R2dbcSelectExecutor.java:301-306 | The criteria are on the reference column, with IN or EQ. |
| SelectExecutors.PlanReferenceRules | panda-r2dbc-core/src/main/java/com/jxpanda/r2dbc/spring/data/core/operation/executor/R2dbcSelectExecutor.java:278-316 | An empty key is not fetched. A collection key uses IN. A collection-like property takes all rows. |
| SelectExecutors.EmptyKeyWithDelimiter | panda-r2dbc-core/src/main/java/com/jxpanda/r2dbc/spring/data/core/operation/executor/R2dbcSelectExecutor.java:290-298 | "" with a delimiter becomes [""], which is still fetched. |
| InsertExecutors.SkipIdAgreesWithIdKit | panda-r2dbc-core/src/main/java/com/jxpanda/r2dbc/spring/data/core/operation/executor/R2dbcInsertExecutor.java:136-148 | Null and number ids are skipped exactly when ineffective. Strings, even "0", are always inserted. |
| InsertExecutors.EffectiveIdStrategy | panda-r2dbc-core/src/main/java/com/jxpanda/r2dbc/spring/data/core/operation/executor/R2dbcInsertExecutor.java:156-166 | A non-DEFAULT annotation strategy wins over the global one. |
| InsertExecutors.GeneratorRule | panda-r2dbc-core/src/main/java/com/jxpanda/r2dbc/spring/data/core/operation/executor/R2dbcInsertExecutor.java:156-166 | An id is generated iff the effective strategy is USE_GENERATOR. |
| InsertExecutors.InitialVersion | panda-r2dbc-core/src/main/java/com/jxpanda/r2dbc/spring/data/core/operation/executor/R2dbcInsertExecutor.java:177-178 | The version starts at 1 for a primitive and 0 otherwise. |
| InsertExecutors.Versioned | panda-r2dbc-core/src/main/java/com/jxpanda/r2dbc/spring/data/core/operation/executor/R2dbcInsertExecutor.java:169-184 | Resets the version property, if any, and nothing else. |
| InsertExecutors.SetVersionIfNecessary | panda-r2dbc-core/src/main/java/com/jxpanda/r2dbc/spring/data/core/operation/executor/R2dbcInsertExecutor.java:169-184 | The bean's properties become `Versioned`. |
| InsertExecutors.WithGeneratedId | panda-r2dbc-core/src/main/java/com/jxpanda/r2dbc/spring/data/core/operation/executor/R2dbcInsertExecutor.java:107-118 | Only the id changes, to the generated value, and only when the id must be generated. |
| InsertExecutors.PotentiallyGeneratorId | panda-r2dbc-core/src/main/java/com/jxpanda/r2dbc/spring/data/core/operation/executor/R2dbcInsertExecutor.java:107-118 | The bean's properties become `WithGeneratedId`. |
| InsertExecutors.IdPrunedKeepsUsableId | panda-r2dbc-core/src/main/java/com/jxpanda/r2dbc/spring/data/core/operation/executor/R2dbcInsertExecutor.java:121-134 | The pruned row keeps distinct columns. It drops only an unusable id, so an id left in it is usable. |
| InsertExecutors.PotentiallyRemoveId | panda-r2dbc-core/src/main/java/com/jxpanda/r2dbc/spring/data/core/operation/executor/R2dbcInsertExecutor.java:121-134 | The row becomes `IdPruned`, keyed by Spring's column name of the id. |
| InsertExecutors.FetchWithoutEntity | panda-r2dbc-core/src/main/java/com/jxpanda/r2dbc/spring/data/core/operation/executor/R2dbcInsertExecutor.java:45-48 | Inserting a bare parameter is unsupported. |
| InsertExecutors.BuildInsertSpec | panda-r2dbc-core/src/main/java/com/jxpanda/r2dbc/spring/data/core/operation/executor/R2dbcInsertExecutor.java:88-101 | Binds only the parameters with values. |
| InsertExecutors.WithValuesMembers | panda-r2dbc-core/src/main/java/com/jxpanda/r2dbc/spring/data/core/operation/executor/R2dbcInsertExecutor.java:94-98 | Keeps exactly the entries with values. |
| InsertExecutors.WithValuesAppend | panda-r2dbc-core/src/main/java/com/jxpanda/r2dbc/spring/data/core/operation/executor/R2dbcInsertExecutor.java:94-98 | Filtering distributes over concatenation. |
| InsertExecutors.WithValuesOfFullRow | panda-r2dbc-core/src/main/java/com/jxpanda/r2dbc/spring/data/core/operation/executor/R2dbcInsertExecutor.java:94-98 | A row where every entry has a value is kept as is. |
| InsertExecutors.PrepareInsert | panda-r2dbc-core/src/main/java/com/jxpanda/r2dbc/spring/data/core/operation/executor/R2dbcInsertExecutor.java:50-67 | Sets the version, then the id, writes the row, prunes an unusable id and binds the values. |
| InsertExecutors.InsertBinds | panda-r2dbc-core/src/main/java/com/jxpanda/r2dbc/spring/data/core/operation/executor/R2dbcInsertExecutor.java:62-67 | The insert binds every entry with a value except an unusable id. |
| UpdateExecutors.IncrementVersion | panda-r2dbc-core/src/main/java/com/jxpanda/r2dbc/spring/data/core/operation/executor/R2dbcUpdateExecutor.java:163-176 | Null becomes 1 and a number n becomes n + 1, wrapped as a long. Other values fail. |
| UpdateExecutors.IncrementVersionSteps | panda-r2dbc-core/src/main/java/com/jxpanda/r2dbc/spring/data/core/operation/executor/R2dbcUpdateExecutor.java:173 | Below the maximum it adds 1, and the maximum wraps to the minimum. |
| UpdateExecutors.FirstUpdateAfterInsert | panda-r2dbc-core/src/main/java/com/jxpanda/r2dbc/spring/data/core/operation/executor/R2dbcUpdateExecutor.java:173 | The first update after an insert gives 2 for a primitive and 1 otherwise. |
| UpdateExecutors.Incremented | panda-r2dbc-core/src/main/java/com/jxpanda/r2dbc/spring/data/core/operation/executor/R2dbcUpdateExecutor.java:163-178 | Increments the version property, if any. |
| UpdateExecutors.IncrementVersionOf | panda-r2dbc-core/src/main/java/com/jxpanda/r2dbc/spring/data/core/operation/executor/R2dbcUpdateExecutor.java:163-178 | The bean's properties become `Incremented`. |
| UpdateExecutors.VersionCriteria | panda-r2dbc-core/src/main/java/com/jxpanda/r2dbc/spring/data/core/operation/executor/R2dbcUpdateExecutor.java:145-161 | Matches the current version, or IS NULL, on the version property's Spring column name. Without a version property it is empty. |
| UpdateExecutors.DroppedColumnsMembers | panda-r2dbc-core/src/main/java/com/jxpanda/r2dbc/spring/data/core/operation/executor/R2dbcUpdateExecutor.java:76-80 | A column is dropped iff the Spring column name of a dropped property names it. |
| UpdateExecutors.PruneUpdateRow | panda-r2dbc-core/src/main/java/com/jxpanda/r2dbc/spring/data/core/operation/executor/R2dbcUpdateExecutor.java:73-80 | Removes and returns the id's column, then removes the dropped properties' columns, all by Spring's column name. |
| UpdateExecutors.UpdateRowMembers | panda-r2dbc-core/src/main/java/com/jxpanda/r2dbc/spring/data/core/operation/executor/R2dbcUpdateExecutor.java:73-80 | Exactly the entries whose column is neither the id's nor a dropped property's remain. |
| UpdateExecutors.IdCriteria | panda-r2dbc-core/src/main/java/com/jxpanda/r2dbc/spring/data/core/operation/executor/R2dbcUpdateExecutor.java:82-86 | Needs a non-blank id column and an id, and ANDs the version criteria. |
| UpdateExecutors.UpdateSpecFor | panda-r2dbc-core/src/main/java/com/jxpanda/r2dbc/spring/data/core/operation/executor/R2dbcUpdateExecutor.java:100-108 | Empty criteria are not attached. |
| UpdateExecutors.QueryUpdateWithoutCriteria | panda-r2dbc-core/src/main/java/com/jxpanda/r2dbc/spring/data/core/operation/executor/R2dbcUpdateExecutor.java:47-51 | EMPTY criteria update every row. |
| UpdateExecutors.UpdateOutcome | panda-r2dbc-core/src/main/java/com/jxpanda/r2dbc/spring/data/core/operation/executor/R2dbcUpdateExecutor.java:114-124 | Zero rows updated is an optimistic-locking failure when versioned, and a missing row otherwise. |
| UpdateExecutors.PrepareUpdate | panda-r2dbc-core/src/main/java/com/jxpanda/r2dbc/spring/data/core/operation/executor/R2dbcUpdateExecutor.java:54-91 | Succeeds iff the version criteria build, the version increments, and the id has a column present in the row. The bean holds the incremented version exactly when the version steps succeed, and is unchanged otherwise. |
| UpdateExecutors.UpdateNeverSetsIdOrInsertOnly | panda-r2dbc-core/src/main/java/com/jxpanda/r2dbc/spring/data/core/operation/executor/R2dbcUpdateExecutor.java:73-80 | The update never sets the id's column or a dropped property's column. |
| OutboundRows.Lookup | panda-r2dbc-core/src/main/java/com/jxpanda/r2dbc/spring/data/core/operation/executor/R2dbcInsertExecutor.java:129 | Finds the column's parameter iff the row has the column. |
| OutboundRows.LookupEntry | panda-r2dbc-core/src/main/java/com/jxpanda/r2dbc/spring/data/core/operation/executor/R2dbcInsertExecutor.java:129 | With distinct columns, it finds the entry's own parameter. |
| OutboundRows.Without | panda-r2dbc-core/src/main/java/com/jxpanda/r2dbc/spring/data/core/operation/executor/R2dbcInsertExecutor.java:132 | Drops exactly the column's entries. |
| OutboundRows.WithoutDistinct | panda-r2dbc-core/src/main/java/com/jxpanda/r2dbc/spring/data/core/operation/executor/R2dbcInsertExecutor.java:132 | Removing keeps the columns distinct. |
| OutboundRows.WithoutAllMembers | panda-r2dbc-core/src/main/java/com/jxpanda/r2dbc/spring/data/core/operation/executor/R2dbcUpdateExecutor.java:74-80 | Drops exactly the entries of the listed columns. |
| OutboundRows.WithoutAllDistinct | panda-r2dbc-core/src/main/java/com/jxpanda/r2dbc/spring/data/core/operation/executor/R2dbcUpdateExecutor.java:74-80 | Removing keeps the columns distinct. |
| OutboundRows.OutboundRow.constructor | panda-r2dbc-core/src/main/java/com/jxpanda/r2dbc/spring/data/core/operation/executor/R2dbcInsertExecutor.java:62 | Holds the given distinct entries. |
| OutboundRows.OutboundRow.Get | panda-r2dbc-core/src/main/java/com/jxpanda/r2dbc/spring/data/core/operation/executor/R2dbcInsertExecutor.java:129 | Finds the column's parameter iff present. |
| OutboundRows.OutboundRow.Remove | panda-r2dbc-core/src/main/java/com/jxpanda/r2dbc/spring/data/core/operation/executor/R2dbcUpdateExecutor.java:74 | Returns the old parameter and removes the column. |
| OutboundRows.Bean.Get | panda-r2dbc-core/src/main/java/com/jxpanda/r2dbc/spring/data/core/operation/executor/R2dbcUpdateExecutor.java:171 | A missing property reads as null. |
| OutboundRows.Bean.SetProperty | panda-r2dbc-core/src/main/java/com/jxpanda/r2dbc/spring/data/core/operation/executor/R2dbcInsertExecutor.java:181 | Sets one property. |

## Left out

- Reactive plumbing (`Mono`/`Flux`, `R2dbcEntityTemplate`, callbacks). Each executor's preparation is modelled as one synchronous step, and the database round trip becomes a parameter (the rows updated, the count row, the first row).
- Reflection is left out: `TwoKeyMap.getOrNewInstance`, `ReflectionKit`, the `DATE`/`ENUM` extensions of a probe (they need `DateTimeKit`/`EnumKit`), and the setter that `Reference.doSelect` calls. The probe rewrite is a parameter.
- JSON type handlers (Jackson, Postgres JSON). Their reading and writing is a parameter of the handler.
- Netty I/O and the buffer's reference counting. `ByteBuf` is a sequence of bytes with a reader index.
- The `synchronized` keyword and concurrency of the Snowflake generator. Calls are sequential here.
- `hashCode` and `toString` of the MySQL messages. `equals` is modelled.
- Snowflake's `SystemClock` thread: the clock is a sequence of readings.
- Snowflake's `wait(offset << 1)`: modelled only as a second clock reading.
- Snowflake's random start of the sequence: the `secondStart` parameter.
- Snowflake.Generator.Next: requires a clock that eventually passes any time. On a clock that never advances, Java's `tilNextMillis` spins forever, and the model does not capture that non-termination.
- Snowflake's abstract `cast`/`generate` wrapper.
- `VarIntUtils` and `AssertUtils` are not part of this model. Length-encoded integers and the null checks follow the MySQL protocol's length-encoded integer and the checks' documented behaviour.
- Spring's `ParsingUtils.splitCamelCase` is not part of this model. `Naming.CamelParts` follows its regular expression `(?<!(^|[%u_$]))(?=[%u])|(?<!^)(?=[%u][%l])` on ASCII letters.
- Spring's `StringUtils.capitalize` agrees with `StringKit.capitalize` and is modelled by it.
- Upper- and lower-casing is ASCII-only, and whitespace follows `Character.isWhitespace` for the characters it lists.
- Global configuration (`R2dbcEnvironment`) is a parameter of each operation.
- `castCollectionToArray` in `CollectionKit` is not modelled, because Java arrays of a runtime component type have no counterpart here.
- The select executor's `fetch`, its callbacks, `selectReference`'s reactive zipping, `defaultSpecBuilder`, the row mappers and `UnwrapOptionalFetchSpecAdapter` are not modelled. Only the projection, the column expressions and the reference query plan are.
- DefinitionMetadata.ReadNames41: the five sequential `readVarIntSizedString` calls are modelled as one counted run of reads.
- Pages.Limit, Pages.Total and Pages.IsQueryCount state the constants `Page` returns; there is nothing more to prove about them.
- Seeker.Seeker.BuildQuery: rewrites every probe by its extension even after an earlier probe failed, whereas Java's lazy stream stops at the first failure. The probes left behind after a failure may differ.
- UpdateExecutors.IncrementVersion: only numbers and null convert. The conversion service's String→Long path and the narrowing on write-back to an `Integer` field are not modelled.
- InsertExecutors.PrepareInsert: the entity is one mutable bean. Immutable entities and callbacks that return a new object are not modelled, and `potentiallyGeneratorId` reads the id through the bean rather than through `domainEntity`'s accessor.
- UpdateExecutors.PrepareUpdate: the entity is one mutable bean, as for inserts.
- Naming.PropertyColumnName: Spring's persistent property is not part of this model. Its column name is modelled after the `@Column` alias that `@TableColumn.name` declares, with the naming strategy as the fallback.
- Pages.Next: `getTotalPages` divides in double precision, and the model divides exactly. The two can differ only for totals beyond 2^53. The narrowing to `int` is modelled.
- Seeker.OrderOf: a null sorter field is not modelled. A field is a string, and only a blank one fails.
- SelectExecutors.ReferenceValue: the delimiter is taken literally. Java's `split` reads it as a regular expression, so "|" on "a|b" gives [a, |, b] there.
- CollectionKit.MergeLength: the NullPointerException that a null list or a null element raises in `merge` and `distinctBy` is not modelled. Lists and their elements are values.
- Criteria.InValues: the failures carry fixed messages. Spring's messages name the offending value's class.
- TypeHandlers.HandlerFor: the failure carries a fixed message. Spring's message names the property.
- SelectSupport.PageTotal: the Unpaged failure carries a message. Spring's `UnsupportedOperationException` has none.

## Findings

| source | as written | input that shows it | evidently intended | confidence | as-written member | corrected member |
|---|---|---|---|---|---|---|
| panda-r2dbc-core/src/main/java/com/jxpanda/r2dbc/spring/data/core/enhance/query/page/Pagination.java:58 | `PageRequest.of(pageNumber, pageSize)` is given the 1-based page number that the slice was computed from | `paging(1, 10, list of 10 items)` reports page number 2 and a total of 20 | pass `pageNumber - 1`, the 0-based index Spring expects | not executed | Pages.PagingNumberIsOneTooHigh | Pages.PagingCorrectedReportsPage |
| panda-r2dbc-core/src/main/java/com/jxpanda/r2dbc/spring/data/core/enhance/query/page/Pagination.java:68-78 | `getHasPrevious` and `getHasNext` call Spring's `hasPrevious`/`hasNext`, which read `getNumber()`, and `Pagination` overrides that to return the 1-based number | 10 records in pages of 5, on the first page: `hasPrevious` is true and `hasNext` is false | answer from the 0-based index: no previous page, and a next page | not executed | Pages.NeighboursAreOneOff | Pages.NeighboursCorrected |
| panda-r2dbc-core/src/main/java/com/jxpanda/r2dbc/spring/data/core/enhance/handler/R2dbcCustomTypeHandlers.java:28 | the list constructor keys each handler by `getClass()`, so a Jackson handler is filed under `R2dbcJacksonTypeHandler` | the list of the default pair: a JSON column looks up `R2dbcJsonTypeHandler.class`, finds nothing and dereferences null | file JSON handlers under `R2dbcJsonTypeHandler`, as the no-argument constructor does | not executed | TypeHandlers.ListRegistryLosesJson | TypeHandlers.ListRegistryOfDefaultPair |
| panda-r2dbc-core/src/main/java/com/jxpanda/r2dbc/spring/data/core/enhance/plugin/R2DbcLogicDeletePlugin.java:36-40 | `handleUpdate` builds `Update.update(column, deleteValue)` without asking `isLogicDeleteEnable`, unlike `handleCriteria` | the default configuration (logic deletion off, blank field) and an entity without `@TableLogic`: the delete's update context fails with an IllegalArgumentException for the blank column; with a field named but logic deletion off, the delete still becomes an update | return no update (null) unless logic deletion is enabled, so the delete stays a physical one | not executed | Plugins.HandleUpdateIgnoresEnable | Plugins.HandleUpdateCorrectedRule |
