/**
 * The handful of Python `str` operations the log analyser is built from,
 * with Python's semantics: `find`, `in`, `split(sep)`, `partition`,
 * `rpartition`, `lstrip(chars)`, `rstrip(chars)`, `replace`, `count` and the
 * negative-index slices `s[:-n]` and `s[1:-1]`.
 */
module PyStr {

  /** `sub` occurs in `s` starting at index `i`. */
  predicate OccursAt(s: string, sub: string, i: int)
  {
    0 <= i && i + |sub| <= |s| && s[i..i + |sub|] == sub
  }

  lemma OccursAtTail(s: string, sub: string, j: int)
    requires |s| > 0 && j >= 1
    ensures OccursAt(s, sub, j) <==> OccursAt(s[1..], sub, j - 1)
  {
    if j + |sub| <= |s| {
      assert s[1..][j - 1..j - 1 + |sub|] == s[j..j + |sub|];
    }
  }

  lemma OccursAtPrefix(s: string, sub: string, n: int, j: int)
    requires 0 <= n <= |s| && j + |sub| <= n
    ensures OccursAt(s, sub, j) <==> OccursAt(s[..n], sub, j)
  {
    if 0 <= j {
      assert s[..n][j..j + |sub|] == s[j..j + |sub|];
    }
  }

  lemma OccursAtSuffix(s: string, sub: string, n: int, j: int)
    requires 0 <= n <= |s| && 0 <= j
    ensures OccursAt(s, sub, n + j) <==> OccursAt(s[n..], sub, j)
  {
    if n + j + |sub| <= |s| {
      assert s[n..][j..j + |sub|] == s[n + j..n + j + |sub|];
    }
  }

  /** Python's `s.find(sub)`: the first index at which `sub` occurs, or -1. */
  function Find(s: string, sub: string): (r: int)
    ensures -1 <= r <= |s|
    ensures r >= 0 ==> OccursAt(s, sub, r)
    ensures forall j :: 0 <= j && (r < 0 || j < r) ==> !OccursAt(s, sub, j)
    decreases |s|
  {
    if |sub| > |s| then -1
    else if s[..|sub|] == sub then 0
    else
      var k := Find(s[1..], sub);
      assert forall j :: 1 <= j ==> (OccursAt(s, sub, j) <==> OccursAt(s[1..], sub, j - 1)) by {
        forall j | 1 <= j { OccursAtTail(s, sub, j); }
      }
      if k < 0 then -1 else k + 1
  }

  /** Python's `sub in s`. */
  predicate Contains(s: string, sub: string)
  {
    Find(s, sub) >= 0
  }

  lemma ContainsChar(s: string, c: char)
    ensures Contains(s, [c]) <==> c in s
  {
    if c in s {
      var j :| 0 <= j < |s| && s[j] == c;
      assert OccursAt(s, [c], j);
    }
    if Contains(s, [c]) {
      var j := Find(s, [c]);
      assert s[j..j + 1] == [c];
      assert s[j] == c;
    }
  }

  /** Python's `s.rfind(sub)`: the last index at which `sub` occurs, or -1. */
  function RFind(s: string, sub: string): (r: int)
    ensures -1 <= r <= |s|
    ensures r >= 0 ==> OccursAt(s, sub, r)
    ensures forall j :: r < j ==> !OccursAt(s, sub, j)
    decreases |s|
  {
    if |sub| > |s| then -1
    else if s[|s| - |sub|..] == sub then |s| - |sub|
    else
      var k := RFind(s[..|s| - 1], sub);
      assert forall j :: j + |sub| <= |s| - 1 ==> (OccursAt(s, sub, j) <==> OccursAt(s[..|s| - 1], sub, j)) by {
        forall j | j + |sub| <= |s| - 1 { OccursAtPrefix(s, sub, |s| - 1, j); }
      }
      k
  }

  /** Python's `s.split(sep)` for a non-empty separator. */
  function Split(s: string, sep: string): (r: seq<string>)
    requires |sep| > 0
    ensures |r| >= 1
    ensures forall k :: 0 <= k < |r| ==> !Contains(r[k], sep)
    decreases |s|
  {
    var i := Find(s, sep);
    if i < 0 then [s]
    else
      NoOccurrenceBefore(s, sep, i);
      [s[..i]] + Split(s[i + |sep|..], sep)
  }

  /** Nothing before the first occurrence contains the separator. */
  lemma NoOccurrenceBefore(s: string, sep: string, i: int)
    requires |sep| > 0 && 0 <= i <= |s|
    requires forall j :: 0 <= j < i ==> !OccursAt(s, sep, j)
    ensures !Contains(s[..i], sep)
  {
    var k := Find(s[..i], sep);
    if k >= 0 {
      OccursAtPrefix(s, sep, i, k);
    }
  }

  /** When the first separator in `a + sep` is the appended one, splitting `a + sep + b` cuts there. */
  lemma SplitAfterFirst(a: string, sep: string, b: string)
    requires |sep| > 0 && Find(a + sep, sep) == |a|
    ensures Split(a + sep + b, sep) == [a] + Split(b, sep)
  {
    var s := a + sep + b;
    assert s[..|a| + |sep|] == a + sep;
    assert s[|a|..|a| + |sep|] == sep;
    assert OccursAt(s, sep, |a|);
    forall j | 0 <= j < |a| ensures !OccursAt(s, sep, j) {
      OccursAtPrefix(s, sep, |a| + |sep|, j);
    }
    assert Find(s, sep) == |a|;
    assert s[..|a|] == a;
    assert s[|a| + |sep|..] == b;
  }

  /** Python's `sep.join(parts)`. */
  function Join(parts: seq<string>, sep: string): (r: string)
    ensures |parts| == 1 ==> r == parts[0]
  {
    if |parts| == 0 then ""
    else if |parts| == 1 then parts[0]
    else parts[0] + sep + Join(parts[1..], sep)
  }

  /** Splitting on a separator and joining with it again gives back the text. */
  lemma {:induction false} JoinSplit(s: string, sep: string)
    requires |sep| > 0
    ensures Join(Split(s, sep), sep) == s
    decreases |s|
  {
    var i := Find(s, sep);
    if i >= 0 {
      var rest := s[i + |sep|..];
      var parts := Split(rest, sep);
      JoinSplit(rest, sep);
      assert Split(s, sep) == [s[..i]] + parts;
      assert ([s[..i]] + parts)[1..] == parts;
      assert Join([s[..i]] + parts, sep) == s[..i] + sep + Join(parts, sep);
      assert s == s[..i] + sep + rest;
    }
  }

  /** Python's `s.partition(sep)`: around the first occurrence, or `(s, "", "")`. */
  function Partition(s: string, sep: string): (r: (string, string, string))
    requires |sep| > 0
    ensures r.0 + r.1 + r.2 == s
    ensures r.1 == sep || (r.1 == "" && r.0 == s && !Contains(s, sep))
    ensures !Contains(r.0, sep)
  {
    var i := Find(s, sep);
    if i < 0 then (s, "", "")
    else
      NoOccurrenceBefore(s, sep, i);
      (s[..i], sep, s[i + |sep|..])
  }

  /** The part before a partition is the first field of the split. */
  lemma PartitionHead(s: string, sep: string)
    requires |sep| > 0
    ensures Partition(s, sep).0 == Split(s, sep)[0]
  {
  }

  /** Python's `s.rpartition(sep)`: around the last occurrence, or `("", "", s)`. */
  function RPartition(s: string, sep: string): (r: (string, string, string))
    requires |sep| > 0
    ensures r.0 + r.1 + r.2 == s
    ensures r.1 == sep || (r.1 == "" && r.0 == "" && r.2 == s && !Contains(s, sep))
    ensures !Contains(r.2, sep)
  {
    var i := RFind(s, sep);
    if i < 0 then
      assert !Contains(s, sep);
      ("", "", s)
    else
      var rest := s[i + |sep|..];
      assert !Contains(rest, sep) by {
        var k := Find(rest, sep);
        if k >= 0 {
          OccursAtSuffix(s, sep, i + |sep|, k);
        }
      }
      assert s[..i] + sep + rest == s;
      (s[..i], sep, rest)
  }

  /** The characters of a Python `chars` argument. */
  function Chars(t: string): (cs: set<char>)
    ensures forall c :: c in cs <==> c in t
  {
    set c | c in t
  }

  /** Python's `s.lstrip(chars)`: drops every leading character that is in `cs`. */
  function LStrip(s: string, cs: set<char>): (r: string)
    ensures |r| <= |s| && r == s[|s| - |r|..]
    ensures forall k :: 0 <= k < |s| - |r| ==> s[k] in cs
    ensures |r| > 0 ==> r[0] !in cs
  {
    if |s| > 0 && s[0] in cs then
      var r := LStrip(s[1..], cs);
      assert s[1..][|s| - 1 - |r|..] == s[|s| - |r|..];
      assert forall k :: 1 <= k < |s| - |r| ==> s[k] == s[1..][k - 1];
      r
    else s
  }

  /** Stripping a prefix made only of `cs` stops at the first character outside `cs`. */
  lemma LStripPrefix(p: string, d: string, cs: set<char>)
    requires forall c :: c in p ==> c in cs
    requires d == [] || d[0] !in cs
    ensures LStrip(p + d, cs) == d
  {
    var s := p + d;
    assert forall k :: 0 <= k < |p| ==> s[k] == p[k];
    assert d != [] ==> s[|p|] == d[0];
  }

  /** Python's `s.rstrip(chars)`: drops every trailing character that is in `cs`. */
  function RStrip(s: string, cs: set<char>): (r: string)
    ensures |r| <= |s| && r == s[..|r|]
    ensures forall k :: |r| <= k < |s| ==> s[k] in cs
    ensures |r| > 0 ==> r[|r| - 1] !in cs
  {
    if |s| > 0 && s[|s| - 1] in cs then RStrip(s[..|s| - 1], cs) else s
  }

  /** Stripping a suffix made only of `cs` stops at the last character outside `cs`. */
  lemma RStripSuffix(d: string, q: string, cs: set<char>)
    requires forall c :: c in q ==> c in cs
    requires d == [] || d[|d| - 1] !in cs
    ensures RStrip(d + q, cs) == d
  {
    var s := d + q;
    assert forall k :: 0 <= k < |q| ==> s[|d| + k] == q[k];
    assert d != [] ==> s[|d| - 1] == d[|d| - 1];
  }

  /** Python's `s.replace(pat, rep)` for a non-empty `pat`: every occurrence, left to right. */
  function Replace(s: string, pat: string, rep: string): (r: string)
    requires |pat| > 0
    ensures !Contains(s, pat) ==> r == s
    ensures rep == pat ==> r == s
  {
    JoinSplit(s, pat);
    Join(Split(s, pat), rep)
  }

  /** Removing with `replace(pat, '')` introduces no character that `s` lacks. */
  lemma {:induction false} RemoveKeepsChars(s: string, pat: string)
    requires |pat| > 0
    ensures forall c :: c in Replace(s, pat, "") ==> c in s
  {
    SplitChars(s, pat);
    JoinEmptyChars(Split(s, pat), s);
  }

  lemma {:induction false} SplitChars(s: string, sep: string)
    requires |sep| > 0
    ensures forall k, c :: 0 <= k < |Split(s, sep)| && c in Split(s, sep)[k] ==> c in s
    decreases |s|
  {
    var i := Find(s, sep);
    if i >= 0 {
      var rest := s[i + |sep|..];
      SplitChars(rest, sep);
      var parts := Split(s, sep);
      assert parts == [s[..i]] + Split(rest, sep);
      forall k, c | 0 <= k < |parts| && c in parts[k] ensures c in s {
        if k == 0 {
          assert c in s[..i];
        } else {
          assert parts[k] == Split(rest, sep)[k - 1];
          assert c in rest;
        }
      }
    }
  }

  lemma {:induction false} JoinEmptyChars(parts: seq<string>, s: string)
    requires forall k, c :: 0 <= k < |parts| && c in parts[k] ==> c in s
    ensures forall c :: c in Join(parts, "") ==> c in s
    decreases |parts|
  {
    if |parts| > 1 {
      JoinEmptyChars(parts[1..], s);
      assert Join(parts, "") == parts[0] + Join(parts[1..], "");
    }
  }

  /** `s.replace(c, '')` for one character `c` leaves no `c` behind. */
  lemma {:induction false} RemoveCharGone(s: string, c: char)
    ensures c !in Replace(s, [c], "")
  {
    var parts := Split(s, [c]);
    forall k | 0 <= k < |parts| ensures c !in parts[k] {
      ContainsChar(parts[k], c);
    }
    JoinWithoutChar(parts, c);
  }

  lemma {:induction false} JoinWithoutChar(parts: seq<string>, c: char)
    requires forall k :: 0 <= k < |parts| ==> c !in parts[k]
    ensures c !in Join(parts, "")
    decreases |parts|
  {
    if |parts| > 1 {
      JoinWithoutChar(parts[1..], c);
      assert Join(parts, "") == parts[0] + Join(parts[1..], "");
    }
  }

  /** Python's `s.count(sub)`: non-overlapping occurrences; `len(s) + 1` for an empty `sub`. */
  function Count(s: string, sub: string): (n: nat)
    ensures sub != "" ==> (n == 0 <==> !Contains(s, sub))
  {
    if sub == "" then |s| + 1 else |Split(s, sub)| - 1
  }

  /** `count` takes the first occurrence, then counts on after it: occurrences never overlap. */
  lemma CountAfterFirst(a: string, sub: string, b: string)
    requires sub != "" && Find(a + sub, sub) == |a|
    ensures Count(a + sub + b, sub) == 1 + Count(b, sub)
  {
    SplitAfterFirst(a, sub, b);
  }

  /** Python's `s[:-n]` for n > 0: all but the last n characters, or "" when `s` is shorter. */
  function DropLast(s: string, n: nat): (r: string)
    requires n > 0
    ensures |s| >= n ==> r + s[|s| - n..] == s && |r| == |s| - n
    ensures |s| < n ==> r == ""
  {
    if |s| >= n then s[..|s| - n] else ""
  }

  /** Python's `s[1:-1]`: without its first and last character, or "" when shorter than 2. */
  function Inner(s: string): (r: string)
    ensures |s| >= 2 ==> s == [s[0]] + r + [s[|s| - 1]]
    ensures |s| < 2 ==> r == ""
  {
    if |s| >= 2 then s[1..|s| - 1] else ""
  }
}
