/** The few string operations of Go's standard library that the service relies on. */
module Text {
  datatype Option<+T> = None | Some(value: T)

  /** White space as unicode.IsSpace defines it. */
  predicate IsSpace(c: char) {
    || c in {'\t', '\n', '\U{0B}', '\U{0C}', '\r', ' ', '\U{85}', '\U{A0}', '\U{1680}'}
    || '\U{2000}' <= c <= '\U{200A}'
    || c in {'\U{2028}', '\U{2029}', '\U{202F}', '\U{205F}', '\U{3000}'}
  }

  function TrimLeft(s: string): (r: string)
    ensures r == "" || !IsSpace(r[0])
  {
    if s != "" && IsSpace(s[0]) then TrimLeft(s[1..]) else s
  }

  function TrimRight(s: string): (r: string)
    ensures r == "" || !IsSpace(r[|r| - 1])
    ensures r <= s
  {
    if s != "" && IsSpace(s[|s| - 1]) then TrimRight(s[..|s| - 1]) else s
  }

  predicate IsTrimmed(s: string) {
    s == "" || (!IsSpace(s[0]) && !IsSpace(s[|s| - 1]))
  }

  /** strings.TrimSpace. */
  function TrimSpace(s: string): (r: string)
    ensures IsTrimmed(r)
  {
    TrimRight(TrimLeft(s))
  }

  predicate IsBlank(s: string) {
    forall i :: 0 <= i < |s| ==> IsSpace(s[i])
  }

  lemma TrimLeftParts(s: string) returns (n: nat)
    ensures n <= |s| && TrimLeft(s) == s[n..] && IsBlank(s[..n])
  {
    n := 0;
    while n < |s| && IsSpace(s[n])
      invariant n <= |s| && IsBlank(s[..n])
      invariant TrimLeft(s) == TrimLeft(s[n..])
    {
      assert s[n..][1..] == s[n + 1..];
      n := n + 1;
    }
  }

  lemma TrimRightParts(s: string) returns (n: nat)
    ensures n <= |s| && TrimRight(s) == s[..n] && IsBlank(s[n..])
  {
    n := |s|;
    assert s[..n] == s;
    while n > 0 && IsSpace(s[n - 1])
      invariant n <= |s| && IsBlank(s[n..])
      invariant TrimRight(s) == TrimRight(s[..n])
    {
      assert s[..n][..n - 1] == s[..n - 1];
      n := n - 1;
    }
  }

  /** Trimming takes white space only, and only from the two ends. */
  lemma TrimSpaceParts(s: string) returns (n: nat, k: nat)
    ensures n <= k <= |s| && TrimSpace(s) == s[n..k] && IsBlank(s[..n]) && IsBlank(s[k..])
  {
    n := TrimLeftParts(s);
    var m := TrimRightParts(s[n..]);
    k := n + m;
    assert s[n..][..m] == s[n..k] && s[n..][m..] == s[k..];
  }

  /** It is the identity exactly on trimmed strings and erases exactly the blank ones. */
  lemma TrimSpaceMeaning(s: string)
    ensures TrimSpace(s) == s <==> IsTrimmed(s)
    ensures TrimSpace(s) == "" <==> IsBlank(s)
    ensures forall c :: c in TrimSpace(s) ==> c in s
  {
    var n, k := TrimSpaceParts(s);
    var r := TrimSpace(s);
    assert forall i :: 0 <= i < n ==> s[i] == s[..n][i];
    assert forall i :: k <= i < |s| ==> s[i] == s[k..][i - k];
    assert forall i :: n <= i < k ==> s[i] == r[i - n];
    assert forall i :: 0 <= i < |s| && !IsSpace(s[i]) ==> n <= i < k;
  }

  /** strings.IndexByte / strings.Index for one character: the first occurrence. */
  function Index(s: string, c: char): (r: Option<nat>)
    ensures r.None? <==> c !in s
    ensures r.Some? ==> r.value < |s| && s[r.value] == c && c !in s[..r.value]
  {
    if s == "" then None
    else if s[0] == c then Some(0)
    else match Index(s[1..], c)
      case None => None
      case Some(i) =>
        assert s[..i + 1] == [s[0]] + s[1..][..i];
        Some(i + 1)
  }

  lemma IndexUnique(s: string, c: char, i: nat)
    requires i < |s| && s[i] == c && c !in s[..i]
    ensures Index(s, c) == Some(i)
  {
    var j := Index(s, c).value;
    assert forall k :: 0 <= k < i ==> s[k] == s[..i][k];
    assert forall k :: 0 <= k < j ==> s[k] == s[..j][k];
  }

  /** strings.Join on a one-character separator. */
  function Join(parts: seq<string>, c: char): string {
    if |parts| == 0 then "" else if |parts| == 1 then parts[0] else parts[0] + [c] + Join(parts[1..], c)
  }

  /** strings.Split on a one-character separator. */
  function Split(s: string, c: char): (r: seq<string>)
    ensures |r| >= 1
    ensures forall p :: p in r ==> c !in p
    ensures Join(r, c) == s
    decreases |s|
  {
    match Index(s, c)
    case None => [s]
    case Some(i) =>
      var rest := Split(s[i + 1..], c);
      assert ([s[..i]] + rest)[1..] == rest;
      assert s == s[..i] + [c] + s[i + 1..];
      [s[..i]] + rest
  }

  /** Splitting takes the parts off in order: up to the first separator, and the rest. */
  lemma SplitFirst(a: string, b: string, c: char)
    requires c !in a
    ensures Split(a, c) == [a] && Split(a + [c] + b, c) == [a] + Split(b, c)
  {
    var s := a + [c] + b;
    assert s[..|a|] == a && s[|a| + 1..] == b;
    IndexUnique(s, c, |a|);
  }

  /** Splitting undoes joining: together with the contract of Split, the two are inverse bijections. */
  lemma {:induction false} SplitJoin(parts: seq<string>, c: char)
    requires |parts| >= 1 && forall p :: p in parts ==> c !in p
    ensures Split(Join(parts, c), c) == parts
  {
    if |parts| > 1 {
      var rest := Join(parts[1..], c);
      var s := parts[0] + [c] + rest;
      assert s[..|parts[0]|] == parts[0] && s[|parts[0]| + 1..] == rest;
      IndexUnique(s, c, |parts[0]|);
      SplitJoin(parts[1..], c);
    } else {
      assert Join(parts, c) == parts[0];
    }
  }

  lemma {:induction false} JoinChars(parts: seq<string>, c: char, x: char)
    requires x != c && forall p :: p in parts ==> x !in p
    ensures x !in Join(parts, c)
  {
    if |parts| > 1 {
      JoinChars(parts[1..], c, x);
    }
  }

  /** strings.Contains. */
  predicate Contains(s: string, sub: string) {
    exists i :: 0 <= i <= |s| && sub <= s[i..]
  }

  /** The lower-case form of each letter that has one, as unicode.ToLower gives it; nothing is assumed of it. */
  type CaseTable = map<char, char>

  function LowerChar(table: CaseTable, c: char): char {
    if c in table then table[c] else c
  }

  /** strings.ToLower. */
  function ToLower(table: CaseTable, s: string): (r: string)
    ensures |r| == |s| && forall i :: 0 <= i < |s| ==> r[i] == LowerChar(table, s[i])
  {
    seq(|s|, i requires 0 <= i < |s| => LowerChar(table, s[i]))
  }
}
