/** The Python string built-ins the downloader relies on, with their meaning stated:
    `str.lower()`, `sub in s`, `str.startswith`/`str.endswith`, `str.split(sep)`,
    `sep.join(parts)`, `str(n)` for a natural number, and POSIX `os.path.join`
    and `os.path.basename`. */
module Text {
  import opened Wrappers

  // ---------------------------------------------------------------- lower()

  /** Lower-casing of one character; only the ASCII letters 'A'..'Z' change. */
  function LowerChar(c: char): char {
    if 'A' <= c <= 'Z' then (c as int + 32) as char else c
  }

  /** `s.lower()`: the same length, every character lower-cased in place. */
  function Lower(s: string): (r: string)
    ensures |r| == |s|
    ensures forall i :: 0 <= i < |s| ==> r[i] == LowerChar(s[i])
  {
    if s == [] then [] else [LowerChar(s[0])] + Lower(s[1..])
  }

  /** Lower-casing twice is lower-casing once. */
  lemma LowerIdempotent(s: string)
    ensures Lower(Lower(s)) == Lower(s)
  {
  }

  // ---------------------------------------------------------------- sub in s

  /** `sub` occurs in `s` starting at index `i`. */
  ghost predicate OccursAt(s: string, sub: string, i: int) {
    0 <= i && i + |sub| <= |s| && s[i..i + |sub|] == sub
  }

  lemma OccursShift(s: string, sub: string)
    requires |s| > 0
    ensures forall j :: 1 <= j ==> (OccursAt(s, sub, j) <==> OccursAt(s[1..], sub, j - 1))
  {
    forall j | 1 <= j
      ensures OccursAt(s, sub, j) <==> OccursAt(s[1..], sub, j - 1)
    {
      if j + |sub| <= |s| {
        assert s[1..][j - 1..j - 1 + |sub|] == s[j..j + |sub|];
      }
    }
  }

  /** `s.find(sub)`: the first index where `sub` occurs, or None when it does not occur. */
  function IndexOf(s: string, sub: string): (r: Option<nat>)
    ensures r.Some? ==> OccursAt(s, sub, r.value)
    ensures forall j :: 0 <= j && (r.None? || j < r.value) ==> !OccursAt(s, sub, j)
    decreases |s|
  {
    if |sub| > |s| then None
    else if s[..|sub|] == sub then Some(0)
    else
      OccursShift(s, sub);
      match IndexOf(s[1..], sub)
      case None => None
      case Some(k) => Some(k + 1)
  }

  /** `sub in s` for strings. */
  predicate Contains(s: string, sub: string)
    ensures Contains(s, sub) <==> exists i :: OccursAt(s, sub, i)
  {
    IndexOf(s, sub).Some?
  }

  /** For a one-character pattern, an occurrence is just a position holding that character. */
  lemma CharOccurs(s: string, c: char)
    ensures forall j :: OccursAt(s, [c], j) <==> 0 <= j < |s| && s[j] == c
  {
    forall j | 0 <= j < |s|
      ensures OccursAt(s, [c], j) <==> s[j] == c
    {
      assert s[j..j + 1] == [s[j]];
    }
  }

  /** A string holding `a + b` holds `b`. */
  lemma ContainsTail(s: string, a: string, b: string)
    requires Contains(s, a + b)
    ensures Contains(s, b)
  {
    var i :| OccursAt(s, a + b, i);
    assert s[i + |a|..i + |a| + |b|] == (a + b)[|a|..];
    assert OccursAt(s, b, i + |a|);
  }

  /** A string holding `a + b` holds `a`. */
  lemma ContainsHead(s: string, a: string, b: string)
    requires Contains(s, a + b)
    ensures Contains(s, a)
  {
    var i :| OccursAt(s, a + b, i);
    assert s[i..i + |a|] == (a + b)[..|a|];
    assert OccursAt(s, a, i);
  }

  /** Lower-casing keeps every occurrence of a pattern that has no upper-case letter. */
  lemma LowerKeepsOccurrence(s: string, sub: string)
    requires Contains(s, sub)
    requires forall k :: 0 <= k < |sub| ==> !('A' <= sub[k] <= 'Z')
    ensures Contains(Lower(s), sub)
  {
    var i :| OccursAt(s, sub, i);
    var l := Lower(s);
    forall k | 0 <= k < |sub|
      ensures l[i..i + |sub|][k] == sub[k]
    {
      assert s[i..i + |sub|][k] == s[i + k];
    }
    assert OccursAt(l, sub, i);
  }

  /** The first occurrence of `sub` in `p + sub + rest` is the one after `p`, when
      `p` cannot start an occurrence: either it lacks the pattern's first character,
      or the pattern's last character is missing from `p` and the rest of the pattern. */
  lemma FirstOccurrenceAfter(p: string, sub: string, rest: string)
    requires sub != ""
    requires sub[0] !in p || sub[|sub| - 1] !in p + sub[..|sub| - 1]
    ensures IndexOf(p + sub + rest, sub) == Some(|p|)
  {
    var s := p + sub + rest;
    assert s[|p|..|p| + |sub|] == sub;
    assert OccursAt(s, sub, |p|);
    forall j | 0 <= j < |p|
      ensures !OccursAt(s, sub, j)
    {
      var w := s[j..j + |sub|];
      if sub[0] !in p {
        assert w[0] == p[j] && p[j] in p;
      } else {
        var e := j + |sub| - 1;
        var q := p + sub[..|sub| - 1];
        assert w[|sub| - 1] == s[e] == q[e] && q[e] in q;
      }
    }
  }

  /** `s.startswith(prefix)` */
  predicate StartsWith(s: string, prefix: string) {
    |prefix| <= |s| && s[..|prefix|] == prefix
  }

  /** `s.endswith(suffix)` */
  predicate EndsWith(s: string, suffix: string) {
    |suffix| <= |s| && s[|s| - |suffix|..] == suffix
  }

  // ---------------------------------------------------------------- split / join

  /** `s.split(sep)` for a non-empty separator: the pieces between the
      non-overlapping occurrences of `sep`, found left to right. */
  function Split(s: string, sep: string): (parts: seq<string>)
    requires sep != ""
    ensures |parts| >= 1
    ensures Contains(s, sep) ==> |parts| >= 2
    decreases |s|
  {
    match IndexOf(s, sep)
    case None => [s]
    case Some(i) => [s[..i]] + Split(s[i + |sep|..], sep)
  }

  /** What splitting means: joining the pieces with the separator gives the text
      back, and no piece holds the separator. */
  lemma {:induction false} SplitMeaning(s: string, sep: string)
    requires sep != ""
    ensures JoinWith(Split(s, sep), sep) == s
    ensures forall k :: 0 <= k < |Split(s, sep)| ==> !Contains(Split(s, sep)[k], sep)
    decreases |s|
  {
    match IndexOf(s, sep)
    case None =>
    case Some(i) =>
      var head, tail := s[..i], s[i + |sep|..];
      SplitMeaning(tail, sep);
      var rest := Split(tail, sep);
      var parts := Split(s, sep);
      assert parts == [head] + rest;
      forall j | 0 <= j && j + |sep| <= |head|
        ensures !OccursAt(head, sep, j)
      {
        assert !OccursAt(s, sep, j);
        assert head[j..j + |sep|] == s[j..j + |sep|];
      }
      assert s == head + sep + tail;
      assert parts[1..] == rest;
      forall k | 1 <= k < |parts|
        ensures !Contains(parts[k], sep)
      {
        assert parts[k] == rest[k - 1];
      }
  }

  /** `sep.join(parts)` */
  function JoinWith(parts: seq<string>, sep: string): string {
    if |parts| == 0 then ""
    else if |parts| == 1 then parts[0]
    else parts[0] + sep + JoinWith(parts[1..], sep)
  }

  lemma Assoc(a: string, b: string, c: string)
    ensures a + b + c == a + (b + c)
  {
  }

  lemma JoinTwo(a: string, b: string, sep: string)
    ensures JoinWith([a, b], sep) == a + sep + b
  {
    assert [a, b][1..] == [b];
  }

  lemma JoinFour(a: string, b: string, c: string, d: string, sep: string)
    ensures JoinWith([a, b, c, d], sep) == a + sep + (b + sep + (c + sep + d))
  {
    assert [a, b, c, d][1..] == [b, c, d];
    assert [b, c, d][1..] == [c, d];
    JoinTwo(c, d, sep);
  }

  /** The first occurrence of a character the prefix lacks is right after the prefix. */
  lemma FirstCharOccurrence(p: string, c: char, rest: string)
    requires c !in p
    ensures IndexOf(p + [c] + rest, [c]) == Some(|p|)
  {
    var s := p + [c] + rest;
    CharOccurs(s, c);
    assert s[|p|] == c;
  }

  /** A character absent from a string is never found in it. */
  lemma NoCharOccurrence(s: string, c: char)
    requires c !in s
    ensures IndexOf(s, [c]) == None
  {
    CharOccurs(s, c);
  }

  /** Splitting on a one-character separator undoes joining with it, as long as
      no piece contains that character. */
  lemma {:induction false} SplitJoin(parts: seq<string>, c: char)
    requires |parts| >= 1
    requires forall k :: 0 <= k < |parts| ==> c !in parts[k]
    ensures Split(JoinWith(parts, [c]), [c]) == parts
  {
    if |parts| == 1 {
      NoCharOccurrence(parts[0], c);
    } else {
      var rest := JoinWith(parts[1..], [c]);
      var s := parts[0] + [c] + rest;
      assert JoinWith(parts, [c]) == s;
      FirstCharOccurrence(parts[0], c, rest);
      assert s[..|parts[0]|] == parts[0];
      assert s[|parts[0]| + 1..] == rest;
      SplitJoin(parts[1..], c);
      assert parts == [parts[0]] + parts[1..];
    }
  }

  /** When `sub` first occurs right after `p` and never again, the second piece of
      the split is everything after it. */
  lemma SplitSecond(p: string, sub: string, rest: string)
    requires sub != ""
    requires IndexOf(p + sub + rest, sub) == Some(|p|)
    requires !Contains(rest, sub)
    ensures Split(p + sub + rest, sub)[1] == rest
  {
    var s := p + sub + rest;
    assert s[|p| + |sub|..] == rest;
    assert Split(rest, sub) == [rest];
  }

  /** The first piece of a split on one character never holds that character. */
  lemma SplitHeadFree(s: string, c: char)
    ensures c !in Split(s, [c])[0]
  {
    CharOccurs(s, c);
    match IndexOf(s, [c])
    case None =>
    case Some(i) =>
      forall k | 0 <= k < i
        ensures s[..i][k] != c
      {
        assert !OccursAt(s, [c], k);
      }
  }

  /** Splitting `head + [c] + rest`, where `head` lacks `c`, gives `head` first. */
  lemma SplitHead(head: string, c: char, rest: string)
    requires c !in head
    ensures Split(head, [c])[0] == head
    ensures Split(head + [c] + rest, [c])[0] == head
  {
    NoCharOccurrence(head, c);
    FirstCharOccurrence(head, c, rest);
    assert (head + [c] + rest)[..|head|] == head;
  }

  // ---------------------------------------------------------------- str(n)

  predicate IsDigit(c: char) {
    '0' <= c <= '9'
  }

  predicate AllDigits(s: string) {
    forall i :: 0 <= i < |s| ==> IsDigit(s[i])
  }

  function DigitChar(d: nat): char
    requires d < 10
  {
    ('0' as int + d) as char
  }

  /** `str(n)` for a natural number: its decimal digits, with no leading zero. */
  function Show(n: nat): (r: string)
    ensures |r| >= 1 && AllDigits(r)
    ensures r[0] == '0' ==> n == 0
  {
    if n < 10 then [DigitChar(n)] else Show(n / 10) + [DigitChar(n % 10)]
  }

  /** `int(s)` for a string of decimal digits. */
  function DecimalValue(s: string): nat
    requires AllDigits(s)
  {
    if s == [] then 0 else 10 * DecimalValue(s[..|s| - 1]) + (s[|s| - 1] as int - '0' as int)
  }

  /** Reading back what `Show` wrote gives the number again. */
  lemma {:induction false} ShowRoundTrip(n: nat)
    ensures DecimalValue(Show(n)) == n
  {
    if n >= 10 {
      var s := Show(n);
      assert s[..|s| - 1] == Show(n / 10);
      ShowRoundTrip(n / 10);
    }
  }

  // ---------------------------------------------------------------- os.path

  /** POSIX `os.path.join(a, b)`: an absolute `b` replaces `a`; otherwise one '/'
      is put between them unless `a` is empty or already ends with one. */
  function PathJoin(a: string, b: string): (r: string)
    ensures EndsWith(r, b)
    ensures StartsWith(b, "/") || StartsWith(r, a)
  {
    if StartsWith(b, "/") then b
    else if a == "" || EndsWith(a, "/") then a + b
    else a + "/" + b
  }

  /** POSIX `os.path.basename(p)`: what follows the last '/'. */
  function Basename(p: string): (r: string)
    ensures '/' !in r
    ensures EndsWith(p, r)
    ensures r == p || (|r| < |p| && p[|p| - |r| - 1] == '/')
  {
    if p == [] || p[|p| - 1] == '/' then [] else Basename(p[..|p| - 1]) + [p[|p| - 1]]
  }

  lemma {:induction false} BasenameAfterSeparator(dir: string, name: string)
    requires dir == "" || EndsWith(dir, "/")
    requires '/' !in name
    ensures Basename(dir + name) == name
  {
    var p := dir + name;
    if name == [] {
      assert p == dir;
    } else {
      var init := name[..|name| - 1];
      var last := name[|name| - 1];
      assert p[|p| - 1] == last && last != '/';
      assert p[..|p| - 1] == dir + init;
      assert '/' !in init;
      BasenameAfterSeparator(dir, init);
      assert Basename(p) == Basename(dir + init) + [last];
      assert name == init + [last];
    }
  }

  /** The base name of a file joined to a directory is the file's own name. */
  lemma BasenameOfJoin(dir: string, name: string)
    requires '/' !in name
    ensures Basename(PathJoin(dir, name)) == name
  {
    assert !StartsWith(name, "/") by {
      if |name| >= 1 { assert name[0] in name && name[..1] == [name[0]]; }
    }
    if dir == "" || EndsWith(dir, "/") {
      BasenameAfterSeparator(dir, name);
    } else {
      assert dir + "/" + name == (dir + "/") + name;
      BasenameAfterSeparator(dir + "/", name);
    }
  }
}
