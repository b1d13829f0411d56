/** The string operations of the admin allow-list pipeline: `split`, `trim` and
    `toLowerCase` as ECMAScript defines them (case mapping restricted to ASCII). */
module Text {

  /** ECMAScript `WhiteSpace` and `LineTerminator` code points, the set `String.prototype.trim` removes. */
  predicate IsSpace(c: char) {
    c == '\t' || c == '\n' || c == '\U{B}' || c == '\U{C}' || c == '\r' || c == ' '
    || c == '\U{A0}' || c == '\U{1680}' || ('\U{2000}' <= c <= '\U{200A}')
    || c == '\U{2028}' || c == '\U{2029}' || c == '\U{202F}' || c == '\U{205F}'
    || c == '\U{3000}' || c == '\U{FEFF}'
  }

  /** `s.trimStart()`: the suffix of `s` left after dropping its leading white space. */
  function TrimStart(s: string): (t: string)
    ensures |t| <= |s| && t == s[|s| - |t|..]
    ensures forall i :: 0 <= i < |s| - |t| ==> IsSpace(s[i])
    ensures t == [] || !IsSpace(t[0])
  {
    if s == [] || !IsSpace(s[0]) then s else TrimStart(s[1..])
  }

  /** `s.trimEnd()`: the prefix of `s` left after dropping its trailing white space. */
  function TrimEnd(s: string): (t: string)
    ensures |t| <= |s| && t == s[..|t|]
    ensures forall i :: |t| <= i < |s| ==> IsSpace(s[i])
    ensures t == [] || !IsSpace(t[|t| - 1])
  {
    if s == [] || !IsSpace(s[|s| - 1]) then s else TrimEnd(s[..|s| - 1])
  }

  /** `s.trim()`: `s` without its leading and trailing white space. The result neither starts
      nor ends with white space; `TrimInfix` shows that nothing else is removed. */
  function Trim(s: string): (t: string)
    ensures |t| <= |s|
    ensures t == [] || (!IsSpace(t[0]) && !IsSpace(t[|t| - 1]))
  {
    TrimEnd(TrimStart(s))
  }

  /** The trimmed string is the infix `s[a..b]`, and only white space lies outside it. */
  lemma TrimInfix(s: string) returns (a: nat, b: nat)
    ensures a <= b <= |s| && Trim(s) == s[a..b]
    ensures forall i :: 0 <= i < a ==> IsSpace(s[i])
    ensures forall i :: b <= i < |s| ==> IsSpace(s[i])
  {
    var u := TrimStart(s);
    var t := TrimEnd(u);
    a := |s| - |u|;
    b := a + |t|;
    forall i | b <= i < |s| ensures IsSpace(s[i]) {
      assert s[i] == u[i - a];
    }
  }

  /** Trimming twice is trimming once. */
  lemma TrimIdempotent(s: string)
    ensures Trim(Trim(s)) == Trim(s)
  {
    var t := Trim(s);
    assert TrimStart(t) == t;
    assert TrimEnd(t) == t;
  }

  /** Trimming removes characters and never adds one. */
  lemma TrimKeepsOut(s: string, c: char)
    requires c !in s
    ensures c !in Trim(s)
  {
    var a, b := TrimInfix(s);
    assert forall i :: 0 <= i < b - a ==> Trim(s)[i] == s[a + i];
  }

  predicate IsUpper(c: char) { 'A' <= c <= 'Z' }

  function LowerChar(c: char): char {
    if IsUpper(c) then (c as int + 32) as char else c
  }

  /** Lower-casing a character never turns it into white space or out of it. */
  lemma LowerCharSpace(c: char)
    ensures IsSpace(LowerChar(c)) == IsSpace(c)
  {
  }

  /** `s.toLowerCase()` on ASCII letters: same length, no upper-case letter left, every other
      character untouched, and letters that differ only in case become equal. */
  function ToLower(s: string): (r: string)
    ensures |r| == |s|
    ensures forall i :: 0 <= i < |s| ==> !IsUpper(r[i])
    ensures forall i :: 0 <= i < |s| && !IsUpper(s[i]) ==> r[i] == s[i]
    ensures forall i :: 0 <= i < |s| && IsUpper(s[i]) ==> r[i] as int == s[i] as int + 32
  {
    seq(|s|, i requires 0 <= i < |s| => LowerChar(s[i]))
  }

  /** Lower-casing is idempotent: a lower-cased string is its own lower-case form. */
  lemma ToLowerIdempotent(s: string)
    ensures ToLower(ToLower(s)) == ToLower(s)
  {
  }

  /** `s.split(sep)` for a one-character separator: always at least one piece (the empty string
      splits into one empty piece), no piece contains the separator, and joining the pieces
      back with the separator gives `s` again. */
  function Split(s: string, sep: char): (parts: seq<string>)
    ensures |parts| >= 1
    ensures forall p :: p in parts ==> sep !in p
    ensures Join(parts, sep) == s
  {
    if s == [] then [[]]
    else
      var rest := Split(s[1..], sep);
      if s[0] == sep then
        assert Join([[]] + rest, sep) == [] + [sep] + Join(rest, sep);
        [[]] + rest
      else
        var parts := [[s[0]] + rest[0]] + rest[1..];
        JoinHead(rest, sep, s[0]);
        parts
  }

  /** `parts.join(sep)`. */
  function Join(parts: seq<string>, sep: char): string
    requires |parts| >= 1
  {
    if |parts| == 1 then parts[0] else parts[0] + [sep] + Join(parts[1..], sep)
  }

  /** Prepending a character to the first piece prepends it to the joined string. */
  lemma JoinHead(parts: seq<string>, sep: char, c: char)
    requires |parts| >= 1
    ensures Join([[c] + parts[0]] + parts[1..], sep) == [c] + Join(parts, sep)
  {
    var q := [[c] + parts[0]] + parts[1..];
    assert q[1..] == parts[1..];
  }

  /** Splitting is the inverse of joining pieces that do not contain the separator. */
  lemma {:induction false} SplitJoin(parts: seq<string>, sep: char)
    requires |parts| >= 1
    requires forall p :: p in parts ==> sep !in p
    ensures Split(Join(parts, sep), sep) == parts
    decreases |parts|, |parts[0]|
  {
    var head := parts[0];
    if head == [] {
      if |parts| > 1 {
        SplitJoin(parts[1..], sep);
        var j := Join(parts, sep);
        assert j == [sep] + Join(parts[1..], sep);
        assert j[1..] == Join(parts[1..], sep);
        assert parts == [[]] + parts[1..];
      }
    } else {
      var tail := [head[1..]] + parts[1..];
      assert head == [head[0]] + head[1..];
      assert tail[1..] == parts[1..];
      assert forall p :: p in tail ==> sep !in p by {
        assert forall x :: x in head[1..] ==> x in head;
      }
      SplitJoin(tail, sep);
      JoinHead(tail, sep, head[0]);
      assert [[head[0]] + tail[0]] + tail[1..] == parts;
      var j := Join(parts, sep);
      assert j[0] == head[0];
      assert j[1..] == Join(tail, sep);
      assert parts[0] in parts && head[0] in head;
    }
  }

  /** Splitting at one separator splits each side independently: the pieces of `a` come first,
      in order, followed by the pieces of `b`. */
  lemma SplitAround(a: string, b: string, sep: char)
    ensures Split(a + [sep] + b, sep) == Split(a, sep) + Split(b, sep)
  {
    var pa, pb := Split(a, sep), Split(b, sep);
    var both := pa + pb;
    assert forall p :: p in both ==> sep !in p;
    JoinConcat(pa, pb, sep);
    SplitJoin(both, sep);
  }

  /** Joining two non-empty lists of pieces puts one separator between them. */
  lemma {:induction false} JoinConcat(pa: seq<string>, pb: seq<string>, sep: char)
    requires |pa| >= 1 && |pb| >= 1
    ensures Join(pa + pb, sep) == Join(pa, sep) + [sep] + Join(pb, sep)
  {
    if |pa| == 1 {
      assert (pa + pb)[1..] == pb;
    } else {
      assert (pa + pb)[1..] == pa[1..] + pb;
      JoinConcat(pa[1..], pb, sep);
    }
  }
}
