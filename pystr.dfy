/** Python string operations the detectors rely on, with Python's semantics
    written out: `str.find`, `in`, `split` on one character, `strip`,
    slicing with clamped and negative bounds, `startswith`/`endswith`,
    `lower` and the lexicographic order of `<` on strings. */
module PyStr {

  /** `sub` occurs in `s` starting at index `i`, compared character by
      character from position `j` of `sub` on. */
  predicate MatchesFrom(s: string, sub: string, i: nat, j: nat)
    requires j <= |sub|
    decreases |sub| - j
  {
    if j == |sub| then i + j <= |s|
    else i + j < |s| && s[i + j] == sub[j] && MatchesFrom(s, sub, i, j + 1)
  }

  /** `sub` occurs in `s` at index `i`. */
  predicate OccursAt(s: string, sub: string, i: nat) {
    MatchesFrom(s, sub, i, 0)
  }

  lemma {:induction false} MatchesFromIsSlice(s: string, sub: string, i: nat, j: nat)
    requires j <= |sub|
    ensures MatchesFrom(s, sub, i, j) <==> i + |sub| <= |s| && s[i + j..i + |sub|] == sub[j..]
    decreases |sub| - j
  {
    if j < |sub| {
      MatchesFromIsSlice(s, sub, i, j + 1);
      if i + |sub| <= |s| {
        assert s[i + j..i + |sub|] == [s[i + j]] + s[i + j + 1..i + |sub|];
        assert sub[j..] == [sub[j]] + sub[j + 1..];
      }
    }
  }

  /** An occurrence is exactly a slice equal to `sub`. */
  lemma OccursAtIsSlice(s: string, sub: string, i: nat)
    ensures OccursAt(s, sub, i) <==> i + |sub| <= |s| && s[i..i + |sub|] == sub
  {
    MatchesFromIsSlice(s, sub, i, 0);
  }

  /** `s.find(sub, start)`: the lowest index `i >= start` at which `sub`
      occurs in `s`, or -1. */
  function Find(s: string, sub: string, start: nat): (r: int)
    ensures r == -1 || (start <= r && OccursAt(s, sub, r))
    decreases |s| - start
  {
    if start + |sub| > |s| then -1
    else if OccursAt(s, sub, start) then start
    else Find(s, sub, start + 1)
  }

  /** An occurrence ends inside the string. */
  lemma OccursAtBounded(s: string, sub: string, i: nat)
    requires OccursAt(s, sub, i)
    ensures i + |sub| <= |s| && s[i..i + |sub|] == sub
  {
    OccursAtIsSlice(s, sub, i);
  }

  /** No occurrence of `sub` starts between `start` and the index `Find` reports. */
  lemma {:induction false} FindIsFirst(s: string, sub: string, start: nat, i: nat)
    requires start <= i
    requires Find(s, sub, start) == -1 || i < Find(s, sub, start)
    ensures !OccursAt(s, sub, i)
    decreases i - start
  {
    if i + |sub| > |s| {
      OccursAtIsSlice(s, sub, i);
    } else if i > start {
      FindIsFirst(s, sub, start + 1, i);
    }
  }

  /** An occurrence at or after `start` makes `Find` succeed no later than it. */
  lemma {:induction false} FindFindsOccurrence(s: string, sub: string, start: nat, i: nat)
    requires start <= i && OccursAt(s, sub, i)
    ensures 0 <= Find(s, sub, start) <= i
    decreases i - start
  {
    OccursAtBounded(s, sub, i);
    if i > start && !OccursAt(s, sub, start) {
      FindFindsOccurrence(s, sub, start + 1, i);
    }
  }

  /** `Find` reports the first occurrence at or after `start`. */
  lemma {:induction false} FindExact(s: string, sub: string, start: nat, i: nat)
    requires start <= i && OccursAt(s, sub, i)
    requires forall j :: start <= j < i ==> !OccursAt(s, sub, j)
    ensures Find(s, sub, start) == i
    decreases i - start
  {
    OccursAtBounded(s, sub, i);
    if start < i {
      FindExact(s, sub, start + 1, i);
    }
  }

  /** `Find` of one character reports its first copy at or after `start`. */
  lemma FindCharExact(s: string, c: char, start: nat, i: nat)
    requires start <= i < |s| && s[i] == c
    requires forall j :: start <= j < i ==> s[j] != c
    ensures Find(s, [c], start) == i
  {
    assert s[i..i + 1] == [c];
    OccursAtIsSlice(s, [c], i);
    forall j | start <= j < i ensures !OccursAt(s, [c], j) {
      OccursAtIsSlice(s, [c], j);
      assert j + 1 <= |s| ==> s[j..j + 1][0] == s[j];
    }
    FindExact(s, [c], start, i);
  }

  /** In `p + m + [c] + v + [stop] + q`, where `m` first occurs after `p`
      and `stop` is in none of `m`, `c` and `v`, the first `m` is at `|p|`
      and the first `stop` from there closes `v`. */
  lemma {:induction false} MarkerThenStop(p: string, m: string, c: char, v: string, stop: char, q: string)
    requires stop !in m && c != stop && stop !in v
    requires forall j :: 0 <= j < |p| ==> !OccursAt(p + m + [c] + v + [stop] + q, m, j)
    ensures var data := p + m + [c] + v + [stop] + q; var e := |p| + |m| + 1 + |v|;
      Find(data, m, 0) == |p| && Find(data, [stop], |p|) == e && data[|p| + |m| + 1..e] == v
  {
    var data := p + m + [c] + v + [stop] + q;
    var e := |p| + |m| + 1 + |v|;
    assert data[|p|..|p| + |m|] == m;
    OccursAtIsSlice(data, m, |p|);
    FindExact(data, m, 0, |p|);
    assert data[e] == stop;
    forall j | |p| <= j < e ensures data[j] != stop {
      if j < |p| + |m| {
        assert data[j] == m[j - |p|];
      } else if j == |p| + |m| {
        assert data[j] == c;
      } else {
        assert data[j] == v[j - |p| - |m| - 1];
      }
    }
    FindCharExact(data, stop, |p|, e);
    assert data[|p| + |m| + 1..e] == v;
  }

  /** An occurrence before which no position starts with the first two
      characters of `sub` is the one `Find` reports. */
  lemma FindByLeadingPair(s: string, sub: string, i: nat)
    requires |sub| >= 2 && i + |sub| <= |s| && s[i..i + |sub|] == sub
    requires forall j :: 0 <= j < i ==> s[j] != sub[0] || s[j + 1] != sub[1]
    ensures Find(s, sub, 0) == i
  {
    OccursAtIsSlice(s, sub, i);
    forall j | 0 <= j < i ensures !OccursAt(s, sub, j) {
      OccursAtIsSlice(s, sub, j);
      if j + |sub| <= |s| {
        assert s[j..j + |sub|][0] == s[j] && s[j..j + |sub|][1] == s[j + 1];
      }
    }
    FindExact(s, sub, 0, i);
  }

  /** A prefix occurrence is found at index 0. */
  lemma FindPrefix(sub: string, rest: string)
    ensures Find(sub + rest, sub, 0) == 0
  {
    var s := sub + rest;
    assert s[0..|sub|] == sub;
    OccursAtIsSlice(s, sub, 0);
  }

  /** Python's `sub in s`: some occurrence of `sub` in `s`. */
  predicate Contains(s: string, sub: string) {
    exists i: nat | i <= |s| :: OccursAt(s, sub, i)
  }

  /** `sub in s` exactly when `s.find(sub)` reports an index. */
  lemma ContainsIffFound(s: string, sub: string)
    ensures Contains(s, sub) <==> Find(s, sub, 0) != -1
  {
    if Contains(s, sub) {
      var i: nat :| i <= |s| && OccursAt(s, sub, i);
      FindFindsOccurrence(s, sub, 0, i);
    }
  }

  /** `a + sub + b` contains `sub`. */
  lemma ContainsInfix(a: string, sub: string, b: string)
    ensures Contains(a + sub + b, sub)
  {
    var s := a + sub + b;
    assert s[|a|..|a| + |sub|] == sub;
    OccursAtIsSlice(s, sub, |a|);
  }

  /** A string that contains `big` contains every piece of `big`. */
  lemma ContainsOfContains(s: string, big: string, sub: string, k: nat)
    requires k + |sub| <= |big| && big[k..k + |sub|] == sub
    requires Contains(s, big)
    ensures Contains(s, sub)
  {
    var i: nat :| i <= |s| && OccursAt(s, big, i);
    OccursAtIsSlice(s, big, i);
    forall t | i + k <= t < i + k + |sub| ensures s[t] == sub[t - i - k] {
      assert s[t] == s[i..i + |big|][t - i] == big[t - i];
    }
    assert s[i + k..i + k + |sub|] == sub;
    OccursAtIsSlice(s, sub, i + k);
  }

  /** Python's normalisation of one slice bound against a length `n`. */
  function Clamp(k: int, n: nat): (r: nat)
    ensures r <= n
  {
    if k < 0 then (if k + n < 0 then 0 else k + n)
    else if k > n then n
    else k
  }

  /** Python's `s[i:j]`. */
  function Slice(s: string, i: int, j: int): (r: string)
    ensures |r| <= |s|
  {
    var a, b := Clamp(i, |s|), Clamp(j, |s|);
    if a < b then s[a..b] else []
  }

  /** A slice with both bounds inside the string is Dafny's own slice. */
  lemma SliceInside(s: string, i: int, j: int)
    requires 0 <= i <= j <= |s|
    ensures Slice(s, i, j) == s[i..j]
  {
  }

  predicate StartsWith(s: string, p: string) {
    |p| <= |s| && s[..|p|] == p
  }

  predicate EndsWith(s: string, p: string) {
    |p| <= |s| && s[|s| - |p|..] == p
  }

  /** `s.split(c)` for a one-character separator. */
  function Split(s: string, c: char): (r: seq<string>)
    ensures |r| >= 1
    decreases |s|
  {
    var k := Find(s, [c], 0);
    if k == -1 then [s] else [s[..k]] + Split(s[k + 1..], c)
  }

  /** `c.join(parts)`. */
  function Join(parts: seq<string>, c: char): string
    decreases |parts|
  {
    if |parts| <= 1 then (if parts == [] then [] else parts[0])
    else parts[0] + [c] + Join(parts[1..], c)
  }

  /** Where `Find` reports a one-character separator, that character is there. */
  lemma FindChar(s: string, c: char, start: nat)
    ensures Find(s, [c], start) != -1 ==> Find(s, [c], start) < |s| && s[Find(s, [c], start)] == c
  {
    var k := Find(s, [c], start);
    if k != -1 {
      OccursAtBounded(s, [c], k);
      assert s[k..k + 1][0] == s[k];
    }
  }

  /** A character of `s` at or after `start` is found by `Find` no later than it. */
  lemma FindCharFinds(s: string, c: char, start: nat, i: nat)
    requires start <= i < |s| && s[i] == c
    ensures 0 <= Find(s, [c], start) <= i
  {
    assert s[i..i + 1] == [c];
    OccursAtIsSlice(s, [c], i);
    FindFindsOccurrence(s, [c], 0 + start, i);
  }

  /** No copy of `c` stands between `start` and the index `Find` reports. */
  lemma FindCharIsFirst(s: string, c: char, start: nat, i: nat)
    requires start <= i < |s|
    requires Find(s, [c], start) == -1 || i < Find(s, [c], start)
    ensures s[i] != c
  {
    if s[i] == c {
      FindCharFinds(s, c, start, i);
    }
  }

  /** `Split` cuts at the first separator. */
  lemma SplitUnfold(s: string, c: char)
    ensures Find(s, [c], 0) == -1 ==> Split(s, c) == [s]
    ensures Find(s, [c], 0) != -1 ==> Split(s, c) == [s[..Find(s, [c], 0)]] + Split(s[Find(s, [c], 0) + 1..], c)
  {
  }

  /** Joining the pieces of a split gives back the string. */
  lemma {:induction false} JoinSplit(s: string, c: char)
    ensures Join(Split(s, c), c) == s
    decreases |s|
  {
    var k := Find(s, [c], 0);
    SplitUnfold(s, c);
    if k != -1 {
      FindChar(s, c, 0);
      var tail := s[k + 1..];
      JoinSplit(tail, c);
      var rest := Split(tail, c);
      assert Split(s, c) == [s[..k]] + rest;
      assert Join([s[..k]] + rest, c) == s[..k] + [c] + Join(rest, c);
      assert s == s[..k] + [c] + tail;
    }
  }

  /** No piece of a split contains the separator. */
  lemma {:induction false} SplitPiecesLackSeparator(s: string, c: char, j: nat)
    requires j < |Split(s, c)|
    ensures c !in Split(s, c)[j]
    decreases |s|
  {
    var k := Find(s, [c], 0);
    SplitUnfold(s, c);
    FindChar(s, c, 0);
    if k == -1 {
      forall i | 0 <= i < |s| ensures s[i] != c {
        FindCharIsFirst(s, c, 0, i);
      }
    } else if j == 0 {
      forall i | 0 <= i < k ensures s[..k][i] != c {
        FindCharIsFirst(s, c, 0, i);
      }
    } else {
      SplitPiecesLackSeparator(s[k + 1..], c, j - 1);
    }
  }

  /** Splitting `a + [c] + b`, where `a` holds no `c`, starts with `a` and goes on with the pieces of `b`. */
  lemma SplitAtFirst(a: string, c: char, b: string)
    requires c !in a
    ensures Split(a + [c] + b, c) == [a] + Split(b, c)
  {
    var s := a + [c] + b;
    FindCharFinds(s, c, 0, |a|);
    FindChar(s, c, 0);
    var k := Find(s, [c], 0);
    assert forall j :: 0 <= j < |a| ==> s[j] == a[j] && s[j] != c;
    assert k == |a|;
    SplitUnfold(s, c);
    assert s[..|a|] == a && s[|a| + 1..] == b;
  }

  /** Splitting distributes over a separator: the pieces of `a`, then those of `b`. */
  lemma {:induction false} SplitConcat(a: string, c: char, b: string)
    ensures Split(a + [c] + b, c) == Split(a, c) + Split(b, c)
    decreases |a|
  {
    if c !in a {
      SplitWithout(a, c);
      SplitAtFirst(a, c, b);
    } else {
      var k := FirstCopy(a, c);
      var head, tail := a[..k], a[k + 1..];
      SplitAtCopy(a, c, k);
      assert a + [c] + b == head + [c] + (tail + [c] + b);
      SplitAtFirst(head, c, tail + [c] + b);
      SplitConcat(tail, c, b);
    }
  }

  /** The first copy of `c` in `s`. */
  lemma {:induction false} FirstCopy(s: string, c: char) returns (k: nat)
    requires c in s
    ensures k < |s| && s[k] == c && c !in s[..k]
    decreases |s|
  {
    if s[0] == c {
      k := 0;
    } else {
      var j := FirstCopy(s[1..], c);
      k := j + 1;
      assert s[..k] == [s[0]] + s[1..][..j];
    }
  }

  /** Splitting at the first copy of the separator. */
  lemma SplitAtCopy(s: string, c: char, k: nat)
    requires k < |s| && s[k] == c && c !in s[..k]
    ensures Split(s, c) == [s[..k]] + Split(s[k + 1..], c)
  {
    assert s == s[..k] + [c] + s[k + 1..];
    SplitAtFirst(s[..k], c, s[k + 1..]);
  }

  /** Splitting a string without the separator gives that string alone. */
  lemma SplitWithout(s: string, c: char)
    requires c !in s
    ensures Split(s, c) == [s]
  {
    FindChar(s, c, 0);
    SplitUnfold(s, c);
  }

  /** A split has one piece, the string itself, exactly when the separator is absent. */
  lemma SplitSingle(s: string, c: char)
    ensures |Split(s, c)| == 1 <==> c !in s
    ensures c !in s <==> Split(s, c)[0] == s
  {
    SplitUnfold(s, c);
    FindChar(s, c, 0);
    var k := Find(s, [c], 0);
    if k == -1 {
      forall i | 0 <= i < |s| ensures s[i] != c {
        FindCharIsFirst(s, c, 0, i);
      }
    } else {
      assert s[k] == c && |s[..k]| < |s|;
    }
  }

  /** A string in which the first two characters of `sub` never stand side by side does not contain `sub`. */
  lemma PairAbsent(s: string, sub: string)
    requires |sub| >= 2
    requires forall j :: 0 <= j < |s| - 1 ==> s[j] != sub[0] || s[j + 1] != sub[1]
    ensures !Contains(s, sub)
  {
    forall i: nat ensures !OccursAt(s, sub, i) {
      OccursAtIsSlice(s, sub, i);
      if i + |sub| <= |s| {
        assert s[i..i + |sub|][0] == s[i] && s[i..i + |sub|][1] == s[i + 1];
      }
    }
  }

  /** A string lacking one of the characters of `sub` does not contain `sub`. */
  lemma AbsentChar(s: string, sub: string, k: nat)
    requires k < |sub| && sub[k] !in s
    ensures !Contains(s, sub)
  {
    forall i: nat ensures !OccursAt(s, sub, i) {
      OccursAtIsSlice(s, sub, i);
      if i + |sub| <= |s| {
        assert s[i..i + |sub|][k] == s[i + k];
      }
    }
  }

  /** Python's `s.strip(c)`: all leading and trailing `c` removed. */
  function StripTrailing(s: string, c: char): (r: string)
    ensures |r| <= |s| && r == s[..|r|]
    ensures r != [] ==> r[|r| - 1] != c
    ensures forall i :: |r| <= i < |s| ==> s[i] == c
    decreases |s|
  {
    if s != [] && s[|s| - 1] == c then StripTrailing(s[..|s| - 1], c) else s
  }

  function StripLeading(s: string, c: char): (r: string)
    ensures |r| <= |s| && r == s[|s| - |r|..]
    ensures r != [] ==> r[0] != c
    decreases |s|
  {
    if s != [] && s[0] == c then StripLeading(s[1..], c) else s
  }

  function Strip(s: string, c: char): string {
    StripLeading(StripTrailing(s, c), c)
  }

  /** `str.isdigit` on one character, restricted to ASCII digits. */
  predicate IsDigit(ch: char) {
    '0' <= ch <= '9'
  }

  function LowerChar(ch: char): char {
    if 'A' <= ch <= 'Z' then (ch as int + 32) as char else ch
  }

  /** `str.lower`, restricted to ASCII letters. */
  function Lower(s: string): (r: string)
    ensures |r| == |s|
    ensures forall i :: 0 <= i < |s| ==> r[i] == LowerChar(s[i])
  {
    seq(|s|, i requires 0 <= i < |s| => LowerChar(s[i]))
  }

  /** Python's `a < b` on strings: code-point lexicographic order, a proper prefix being smaller. */
  predicate StrLt(a: string, b: string)
    decreases |a|
  {
    if a == [] then b != []
    else if b == [] then false
    else if a[0] != b[0] then a[0] < b[0]
    else StrLt(a[1..], b[1..])
  }

  /** Python's `a <= b` on strings. */
  predicate StrLe(a: string, b: string) {
    a == b || StrLt(a, b)
  }

  lemma {:induction false} StrLtIrreflexive(a: string)
    ensures !StrLt(a, a)
    decreases |a|
  {
    if a != [] {
      StrLtIrreflexive(a[1..]);
    }
  }

  lemma {:induction false} StrLtTransitive(a: string, b: string, c: string)
    requires StrLt(a, b) && StrLt(b, c)
    ensures StrLt(a, c)
    decreases |a|
  {
    if a != [] && a[0] == b[0] && b[0] == c[0] {
      StrLtTransitive(a[1..], b[1..], c[1..]);
    }
  }

  lemma {:induction false} StrLtTotal(a: string, b: string)
    ensures a == b || StrLt(a, b) || StrLt(b, a)
    decreases |a|
  {
    if a != [] && b != [] && a[0] == b[0] {
      StrLtTotal(a[1..], b[1..]);
      if a[1..] == b[1..] {
        assert a == [a[0]] + a[1..] && b == [b[0]] + b[1..];
      }
    }
  }

  /** `StrLe` is transitive. */
  lemma StrLeTransitive(a: string, b: string, c: string)
    requires StrLe(a, b) && StrLe(b, c)
    ensures StrLe(a, c)
  {
    if a != b && b != c {
      StrLtTransitive(a, b, c);
    }
  }

  /** Python's `lst.index(x)`: the first position of `x`, or -1 where Python raises ValueError. */
  function IndexOf(lst: seq<string>, x: string): (r: int)
    ensures r == -1 || (0 <= r < |lst| && lst[r] == x)
    ensures r == -1 <==> x !in lst
    ensures forall j :: 0 <= j < r ==> lst[j] != x
    decreases |lst|
  {
    if lst == [] then -1
    else if lst[0] == x then 0
    else var k := IndexOf(lst[1..], x); if k == -1 then -1 else k + 1
  }
}
