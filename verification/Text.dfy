/** The string operations of Go's strings package that the modelled code calls, on ASCII text. */
module Text {
  import opened Base

  predicate IsSpace(c: Octet) {
    c == ' ' || '\t' <= c <= '\r'
  }

  predicate IsQuote(c: Octet) { c == '\"' }

  /** Index of the first c in s, or |s|. */
  function Find(s: Bytes, c: Octet): (i: nat)
    ensures i <= |s| && c !in s[..i]
    ensures i < |s| ==> s[i] == c
  {
    if s == [] || s[0] == c then 0 else
      var i := 1 + Find(s[1..], c);
      assert s[..i] == [s[0]] + s[1..][..i - 1];
      i
  }

  lemma FindSeparator(a: Bytes, c: Octet, b: Bytes)
    requires c !in a
    ensures Find(a + [c] + b, c) == |a|
    ensures (a + [c] + b)[..|a|] == a && (a + [c] + b)[|a| + 1..] == b
  {
    var s := a + [c] + b;
    assert s[|a|] == c;
    assert forall k :: 0 <= k < |a| ==> s[k] == a[k];
  }

  lemma FindAbsent(s: Bytes, c: Octet)
    ensures c !in s <==> Find(s, c) == |s|
  {
    var i := Find(s, c);
    if i == |s| {
      assert s[..i] == s;
    }
  }

  /** strings.Cut: the text before and after the first separator; None when there is none. */
  function Cut(s: Bytes, c: Octet): (r: Option<(Bytes, Bytes)>)
    ensures r.Some? ==> c !in r.value.0 && s == r.value.0 + [c] + r.value.1
  {
    var i := Find(s, c);
    if i == |s| then None else Some((s[..i], s[i + 1..]))
  }

  lemma CutSeparator(a: Bytes, c: Octet, b: Bytes)
    requires c !in a
    ensures Cut(a + [c] + b, c) == Some((a, b))
  {
    FindSeparator(a, c, b);
  }

  /** strings.Split on one separator octet. */
  function Split(s: Bytes, c: Octet): (r: seq<Bytes>)
    ensures |r| >= 1
    ensures forall p <- r :: c !in p
    decreases |s|
  {
    var i := Find(s, c);
    FindAbsent(s, c);
    if i == |s| then [s] else [s[..i]] + Split(s[i + 1..], c)
  }

  lemma SplitOne(s: Bytes, c: Octet)
    requires c !in s
    ensures Split(s, c) == [s]
  {
    FindAbsent(s, c);
  }

  lemma SplitSeparator(a: Bytes, c: Octet, b: Bytes)
    requires c !in a
    ensures Split(a + [c] + b, c) == [a] + Split(b, c)
  {
    FindSeparator(a, c, b);
  }

  function TrimLeft(s: Bytes, drop: Octet -> bool): (r: Bytes)
    ensures r != [] ==> !drop(r[0])
    ensures |r| <= |s| && r == s[|s| - |r|..]
  {
    if s != [] && drop(s[0]) then TrimLeft(s[1..], drop) else s
  }

  function TrimRight(s: Bytes, drop: Octet -> bool): (r: Bytes)
    ensures r != [] ==> !drop(r[|r| - 1])
    ensures r <= s
  {
    if s != [] && drop(s[|s| - 1]) then TrimRight(s[..|s| - 1], drop) else s
  }

  /** strings.Trim and, with IsSpace, strings.TrimSpace. */
  function Trim(s: Bytes, drop: Octet -> bool): (r: Bytes)
    ensures r != [] ==> !drop(r[0]) && !drop(r[|r| - 1])
    ensures forall c <- r :: c in s
  {
    TrimRight(TrimLeft(s, drop), drop)
  }

  function TrimSpace(s: Bytes): Bytes { Trim(s, IsSpace) }

  /** strings.Fields: the maximal runs of non-space octets. */
  function Fields(s: Bytes): (r: seq<Bytes>)
    ensures forall f <- r :: f != [] && NoSpace(f)
    decreases |s|
  {
    if s == [] then []
    else if IsSpace(s[0]) then Fields(s[1..])
    else
      var n := WordLength(s);
      [s[..n]] + Fields(s[n..])
  }

  predicate NoSpace(s: Bytes) { forall c <- s :: !IsSpace(c) }

  function WordLength(s: Bytes): (n: nat)
    ensures n <= |s| && NoSpace(s[..n])
    ensures n < |s| ==> IsSpace(s[n])
    ensures s != [] && !IsSpace(s[0]) ==> n > 0
  {
    if s == [] || IsSpace(s[0]) then 0 else
      var n := 1 + WordLength(s[1..]);
      assert s[..n] == [s[0]] + s[1..][..n - 1];
      n
  }

  lemma FieldsOne(a: Bytes)
    requires a != [] && NoSpace(a)
    ensures Fields(a) == [a]
  {
    var n := WordLength(a);
    assert forall k :: 0 <= k < |a| ==> a[k] in a;
    assert a[..n] == a && a[n..] == [];
    assert Fields(a) == [a] + Fields([]);
  }

  lemma WordBeforeSpace(a: Bytes, b: Bytes)
    requires NoSpace(a)
    ensures WordLength(a + " " + b) == |a|
  {
    var s := a + " " + b;
    if a == [] {
      assert s[0] == ' ';
    } else {
      assert s[0] == a[0] && s[1..] == a[1..] + " " + b;
      WordBeforeSpace(a[1..], b);
    }
  }

  lemma FieldsSkip(s: Bytes)
    requires s != [] && IsSpace(s[0])
    ensures Fields(s) == Fields(s[1..])
  {
  }

  lemma FieldsWord(s: Bytes, n: nat)
    requires s != [] && !IsSpace(s[0]) && n == WordLength(s)
    ensures Fields(s) == [s[..n]] + Fields(s[n..])
  {
  }

  lemma FieldsBeforeSpace(a: Bytes, b: Bytes, s: Bytes)
    requires a != [] && NoSpace(a) && s == a + " " + b
    ensures Fields(s) == [a] + Fields(" " + b)
  {
    assert s[0] == a[0];
    WordBeforeSpace(a, b);
    FieldsWord(s, |a|);
    assert s[..|a|] == a && s[|a|..] == " " + b;
  }

  lemma FieldsTwo(a: Bytes, b: Bytes)
    requires a != [] && b != [] && NoSpace(a) && NoSpace(b)
    ensures Fields(a + " " + b) == [a, b]
  {
    FieldsBeforeSpace(a, b, a + " " + b);
    var rest: Bytes := " " + b;
    FieldsSkip(rest);
    assert rest[1..] == b;
    FieldsOne(b);
  }

  function Upper(c: Octet): Octet {
    if 'a' <= c <= 'z' then (c as int - 32) as char else c
  }

  function Lower(c: Octet): Octet {
    if 'A' <= c <= 'Z' then (c as int + 32) as char else c
  }

  function ToUpper(s: Bytes): (r: Bytes)
    ensures |r| == |s|
  {
    seq(|s|, i requires 0 <= i < |s| => Upper(s[i]))
  }

  function ToLower(s: Bytes): (r: Bytes)
    ensures |r| == |s|
  {
    seq(|s|, i requires 0 <= i < |s| => Lower(s[i]))
  }

  predicate EqualFold(a: Bytes, b: Bytes) { ToLower(a) == ToLower(b) }

  predicate HasPrefix(s: Bytes, p: Bytes) { |p| <= |s| && s[..|p|] == p }

  predicate HasSuffix(s: Bytes, p: Bytes) { |p| <= |s| && s[|s| - |p|..] == p }

  /** The letters and the white space of ASCII, by code. */
  lemma Ascii(c: Octet)
    ensures Lower(c) as int == if 65 <= c as int <= 90 then c as int + 32 else c as int
    ensures Upper(c) as int == if 97 <= c as int <= 122 then c as int - 32 else c as int
    ensures IsSpace(c) <==> c as int == 32 || 9 <= c as int <= 13
    ensures IsQuote(c) <==> c as int == 34
  {
  }

  lemma PrefixExactly(s: Bytes, p: Bytes)
    ensures HasPrefix(s, p) <==> exists rest: Bytes :: s == p + rest
    ensures HasSuffix(s, p) <==> exists front: Bytes :: s == front + p
  {
    if HasPrefix(s, p) {
      assert s == p + s[|p|..];
    }
    if HasSuffix(s, p) {
      assert s == s[..|s| - |p|] + p;
    }
    forall rest: Bytes | s == p + rest ensures HasPrefix(s, p) { assert s[..|p|] == p; }
    forall front: Bytes | s == front + p ensures HasSuffix(s, p) { assert s[|s| - |p|..] == p; }
  }

  /** Splitting undoes joining when no part holds the separator. */
  lemma {:induction false} SplitJoin(parts: seq<Bytes>, sep: Octet)
    requires parts != [] && forall i :: 0 <= i < |parts| ==> sep !in parts[i]
    ensures Split(Join(parts, sep), sep) == parts
    decreases |parts|
  {
    if |parts| == 1 {
      SplitOne(parts[0], sep);
      assert parts == [parts[0]];
    } else {
      SplitJoin(parts[1..], sep);
      SplitSeparator(parts[0], sep, Join(parts[1..], sep));
      assert parts == [parts[0]] + parts[1..];
    }
  }

  /** strings.Join with one separator octet. */
  function Join(parts: seq<Bytes>, sep: Octet): Bytes {
    if parts == [] then [] else if |parts| == 1 then parts[0] else parts[0] + [sep] + Join(parts[1..], sep)
  }
}
