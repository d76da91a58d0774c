/** The functions of Go's `strings` package that the configuration and the
    service manager call: `Split` with a one-character separator,
    `HasPrefix`, and `Replace` with a count of one. Beside them are the
    searches those are built on (`IndexByte`, `Index`) and `Join`, the
    inverse of `Split` the round-trip lemmas use. */
module GoStrings {
  import opened Wrappers

  /** Position of the first `c` in `s` at or after `from`, None when there
      is none. */
  function IndexByteFrom(s: string, c: char, from: nat): (r: Option<nat>)
    requires from <= |s|
    ensures r.Some? ==> from <= r.value < |s| && s[r.value] == c
    ensures r.Some? ==> forall k :: from <= k < r.value ==> s[k] != c
    ensures r.None? ==> forall k :: from <= k < |s| ==> s[k] != c
    decreases |s| - from
  {
    if from == |s| then None
    else if s[from] == c then Some(from)
    else IndexByteFrom(s, c, from + 1)
  }

  /** Position of the first `c` in `s` (`strings.IndexByte`), None when absent. */
  function IndexByte(s: string, c: char): (r: Option<nat>)
    ensures r.Some? ==> r.value < |s| && s[r.value] == c && c !in s[..r.value]
    ensures r.None? ==> c !in s
  {
    IndexByteFrom(s, c, 0)
  }

  /** The text before the first `c`, or all of `s` when it has no `c`. */
  function Before(s: string, c: char): (r: string)
    ensures r <= s && c !in r
    ensures |r| < |s| ==> s[|r|] == c
  {
    match IndexByte(s, c)
    case None => s
    case Some(i) => s[..i]
  }

  /** The text after the first `c`, None when `s` has no `c`. */
  function After(s: string, c: char): (r: Option<string>)
    ensures r.None? <==> c !in s
    ensures r.Some? ==> |Before(s, c)| < |s| && r.value == s[|Before(s, c)| + 1..]
  {
    match IndexByte(s, c)
    case None => None
    case Some(i) => Some(s[i + 1..])
  }

  /** The first `c` of `s` sits at `i`: the text before it and the text
      after it are the two sides of position `i`. */
  lemma BeforeAfterAt(s: string, c: char, i: nat)
    requires i < |s| && s[i] == c && c !in s[..i]
    ensures Before(s, c) == s[..i]
    ensures After(s, c) == Some(s[i + 1..])
  {
  }

  /** Without a `c`, all of `s` comes before it and nothing after it. */
  lemma BeforeAfterNone(s: string, c: char)
    requires c !in s
    ensures Before(s, c) == s
    ensures After(s, c) == None
  {
  }

  /** Text without `c`, then `c`, then anything: the first part comes before
      the first `c` and the last part after it. */
  lemma BeforeAfterGlue(a: string, c: char, b: string)
    requires c !in a
    ensures Before(a + [c] + b, c) == a
    ensures After(a + [c] + b, c) == Some(b)
  {
    var s := a + [c] + b;
    assert s[..|a|] == a;
    assert s[|a| + 1..] == b;
    BeforeAfterAt(s, c, |a|);
  }

  /** The text before the first `c` is the prefix of length `n` exactly
      when that prefix has no `c` and is followed by `c` or by the end. */
  lemma BeforeIs(s: string, c: char, n: nat)
    requires n <= |s|
    requires forall k :: 0 <= k < n ==> s[k] != c
    requires n < |s| ==> s[n] == c
    ensures Before(s, c) == s[..n]
  {
  }

  /** The pieces of `s[from..]` between occurrences of `sep`. */
  function SplitFrom(s: string, sep: char, from: nat): (parts: seq<string>)
    requires from <= |s|
    ensures |parts| >= 1
    decreases |s| - from
  {
    match IndexByteFrom(s, sep, from)
    case None => [s[from..]]
    case Some(i) => [s[from..i]] + SplitFrom(s, sep, i + 1)
  }

  /** The first piece of `s[from..]` is the text before its first `sep`. */
  lemma SplitFromFirst(s: string, sep: char, from: nat)
    requires from <= |s|
    ensures SplitFrom(s, sep, from)[0] == Before(s[from..], sep)
  {
    match IndexByteFrom(s, sep, from)
    case None =>
      BeforeIs(s[from..], sep, |s| - from);
    case Some(i) =>
      BeforeIs(s[from..], sep, i - from);
  }

  /** `strings.Split(s, string(sep))`: the pieces between occurrences of
      `sep`; the empty string splits into one empty piece. */
  function Split(s: string, sep: char): (parts: seq<string>)
    ensures |parts| >= 1
    ensures parts[0] == Before(s, sep)
  {
    SplitFromFirst(s, sep, 0);
    assert s[0..] == s;
    SplitFrom(s, sep, 0)
  }

  /** There is a second piece exactly when `s` has a `sep`, and it is the
      text after the first `sep` up to the next one. */
  lemma SplitSecond(s: string, sep: char)
    ensures |Split(s, sep)| >= 2 <==> After(s, sep).Some?
    ensures |Split(s, sep)| >= 2 ==> Split(s, sep)[1] == Before(After(s, sep).value, sep)
  {
    match IndexByteFrom(s, sep, 0)
    case None =>
    case Some(i) =>
      SplitFromFirst(s, sep, i + 1);
      assert Split(s, sep)[1] == SplitFrom(s, sep, i + 1)[0];
  }

  /** No piece of `s[from..]` contains the separator. */
  lemma {:induction false} SplitFromPiecesFree(s: string, sep: char, from: nat)
    requires from <= |s|
    ensures forall k :: 0 <= k < |SplitFrom(s, sep, from)| ==> sep !in SplitFrom(s, sep, from)[k]
    decreases |s| - from
  {
    match IndexByteFrom(s, sep, from)
    case None =>
    case Some(i) =>
      SplitFromPiecesFree(s, sep, i + 1);
      SplitFromCons(s, sep, from, i);
  }

  /** No piece `Split` yields contains the separator. */
  lemma SplitPiecesFree(s: string, sep: char)
    ensures forall k :: 0 <= k < |Split(s, sep)| ==> sep !in Split(s, sep)[k]
  {
    SplitFromPiecesFree(s, sep, 0);
  }

  /** `strings.Join(parts, string(sep))`. */
  function Join(parts: seq<string>, sep: char): string
    decreases |parts|
  {
    if |parts| == 0 then ""
    else if |parts| == 1 then parts[0]
    else parts[0] + [sep] + Join(parts[1..], sep)
  }

  /** A slice taken from `from` is the text before `i`, the character at
      `i` and the text after it. */
  lemma SliceAround(s: string, from: nat, i: nat)
    requires from <= i < |s|
    ensures s[from..] == s[from..i] + [s[i]] + s[i + 1..]
  {
  }

  /** Joining a piece in front of at least one more puts a separator
      between it and the join of the rest. */
  lemma JoinCons(head: string, tail: seq<string>, sep: char)
    requires |tail| >= 1
    ensures Join([head] + tail, sep) == head + [sep] + Join(tail, sep)
  {
    assert ([head] + tail)[1..] == tail;
  }

  /** Joining the pieces of `s[from..]` gives back `s[from..]`. */
  lemma {:induction false} JoinSplitFrom(s: string, sep: char, from: nat)
    requires from <= |s|
    ensures Join(SplitFrom(s, sep, from), sep) == s[from..]
    decreases |s| - from
  {
    match IndexByteFrom(s, sep, from)
    case None =>
    case Some(i) =>
      SplitFromCons(s, sep, from, i);
      JoinSplitFrom(s, sep, i + 1);
      JoinCons(s[from..i], SplitFrom(s, sep, i + 1), sep);
      SliceAround(s, from, i);
  }

  /** Splitting and joining again gives back the original string. */
  lemma JoinSplit(s: string, sep: char)
    ensures Join(Split(s, sep), sep) == s
  {
    JoinSplitFrom(s, sep, 0);
  }

  /** A `c` at `i` with none in `[from, i)` is the one `IndexByteFrom` finds. */
  lemma IndexByteFromAt(s: string, c: char, from: nat, i: nat)
    requires from <= i < |s| && s[i] == c
    requires forall k :: from <= k < i ==> s[k] != c
    ensures IndexByteFrom(s, c, from) == Some(i)
  {
  }

  /** Without a `c` in `s[from..]`, `IndexByteFrom` finds nothing. */
  lemma IndexByteFromNone(s: string, c: char, from: nat)
    requires from <= |s|
    requires forall k :: from <= k < |s| ==> s[k] != c
    ensures IndexByteFrom(s, c, from) == None
  {
  }

  /** A `sep` found at `i` ends the first piece, and the rest are the
      pieces from `i + 1` on. */
  lemma SplitFromCons(s: string, sep: char, from: nat, i: nat)
    requires from <= |s|
    requires IndexByteFrom(s, sep, from) == Some(i)
    ensures SplitFrom(s, sep, from) == [s[from..i]] + SplitFrom(s, sep, i + 1)
  {
  }

  /** When `s[from..]` is a piece without `sep`, a `sep` and a tail, the
      first `sep` from `from` on is the one after the piece. */
  lemma FirstSepAt(s: string, sep: char, from: nat, head: string, tail: string)
    requires from <= |s|
    requires sep !in head
    requires s[from..] == head + [sep] + tail
    ensures IndexByteFrom(s, sep, from) == Some(from + |head|)
    ensures s[from..from + |head|] == head
    ensures s[from + |head| + 1..] == tail
  {
    var n := |head|;
    assert forall k :: from <= k < from + n ==> s[k] == head[k - from];
    assert s[from + n] == sep;
    IndexByteFromAt(s, sep, from, from + n);
  }

  /** When `s[from..]` is a piece without `sep`, it is the only piece. */
  lemma LastPiece(s: string, sep: char, from: nat, piece: string)
    requires from <= |s|
    requires sep !in piece
    requires s[from..] == piece
    ensures SplitFrom(s, sep, from) == [piece]
  {
    assert forall k :: from <= k < |s| ==> s[k] == piece[k - from];
    IndexByteFromNone(s, sep, from);
  }

  /** When `s[from..]` is the join of separator-free pieces, splitting it
      from `from` gives back those pieces. */
  lemma {:induction false} SplitFromJoin(s: string, sep: char, from: nat, parts: seq<string>)
    requires from <= |s|
    requires |parts| >= 1
    requires forall k :: 0 <= k < |parts| ==> sep !in parts[k]
    requires s[from..] == Join(parts, sep)
    ensures SplitFrom(s, sep, from) == parts
    decreases |parts|
  {
    if |parts| == 1 {
      LastPiece(s, sep, from, parts[0]);
    } else {
      var n := |parts[0]|;
      FirstSepAt(s, sep, from, parts[0], Join(parts[1..], sep));
      SplitFromCons(s, sep, from, from + n);
      SplitFromJoin(s, sep, from + n + 1, parts[1..]);
      assert parts == [parts[0]] + parts[1..];
    }
  }

  /** Joining pieces that do not contain `sep` and splitting again gives
      back the pieces. */
  lemma SplitJoin(parts: seq<string>, sep: char)
    requires |parts| >= 1
    requires forall k :: 0 <= k < |parts| ==> sep !in parts[k]
    ensures Split(Join(parts, sep), sep) == parts
  {
    var s := Join(parts, sep);
    assert s[0..] == s;
    SplitFromJoin(s, sep, 0, parts);
  }

  /** `strings.HasPrefix(s, prefix)`. */
  function HasPrefix(s: string, prefix: string): (b: bool)
    ensures b <==> |prefix| <= |s| && s[..|prefix|] == prefix
  {
    prefix <= s
  }

  /** `pat` occurs in `s` starting at position `i`. */
  predicate OccursAt(s: string, pat: string, i: nat)
  {
    i + |pat| <= |s| && s[i..i + |pat|] == pat
  }

  /** The first position at or after `from` where `pat` occurs, None when
      it occurs nowhere from there on. */
  function IndexFrom(s: string, pat: string, from: nat): (r: Option<nat>)
    requires from <= |s|
    ensures r.Some? ==> from <= r.value && OccursAt(s, pat, r.value)
    ensures r.Some? ==> forall j: nat :: from <= j < r.value ==> !OccursAt(s, pat, j)
    ensures r.None? ==> forall j: nat :: from <= j ==> !OccursAt(s, pat, j)
    decreases |s| - from
  {
    if OccursAt(s, pat, from) then Some(from)
    else if from == |s| then None
    else IndexFrom(s, pat, from + 1)
  }

  /** `strings.Index(s, pat)`: the first position where `pat` occurs, None
      when it does not occur; the empty pattern occurs at 0. */
  function Index(s: string, pat: string): (r: Option<nat>)
    ensures r.Some? ==> OccursAt(s, pat, r.value)
    ensures r.Some? ==> forall j: nat :: j < r.value ==> !OccursAt(s, pat, j)
    ensures r.None? ==> forall j: nat :: !OccursAt(s, pat, j)
  {
    IndexFrom(s, pat, 0)
  }

  /** `strings.Replace(s, pat, replacement, 1)`: the first occurrence of
      `pat` replaced by `replacement`, or `s` unchanged when `pat` does not
      occur. */
  function ReplaceFirst(s: string, pat: string, replacement: string): (r: string)
    ensures Index(s, pat).None? ==> r == s
    ensures Index(s, pat).Some? ==>
              var i := Index(s, pat).value;
              |r| == |s| - |pat| + |replacement| &&
              r[..i] == s[..i] &&
              r[i..i + |replacement|] == replacement &&
              r[i + |replacement|..] == s[i + |pat|..]
  {
    match Index(s, pat)
    case None => s
    case Some(i) => s[..i] + replacement + s[i + |pat|..]
  }
}
