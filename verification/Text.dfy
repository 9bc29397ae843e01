/** The string operations of Go's standard library that the operator builds its
    files with: splitting, joining, cutting, prefixes and byte order. */
module Text {

  datatype Option<+T> = None | Some(value: T)

  datatype Pair<+A, +B> = Pair(fst: A, snd: B)

  /** A Go map read: the zero value for a missing key. */
  function Get(m: map<string, string>, key: string): string { if key in m then m[key] else "" }

  predicate IsAlnum(c: char) { 'A' <= c <= 'Z' || 'a' <= c <= 'z' || '0' <= c <= '9' }

  // ---------------------------------------------------------------- splitting

  /** strings.Split for a one-character separator. */
  function Split(s: string, sep: char): (parts: seq<string>)
    ensures |parts| >= 1
  {
    if s == "" then [""]
    else
      var rest := Split(s[1..], sep);
      if s[0] == sep then [""] + rest else [[s[0]] + rest[0]] + rest[1..]
  }

  /** strings.Join for a one-character separator. */
  function Join(parts: seq<string>, sep: char): string {
    if |parts| == 0 then ""
    else if |parts| == 1 then parts[0]
    else parts[0] + [sep] + Join(parts[1..], sep)
  }

  /** No part is cut short or glued together: the parts hold no separator, and
      joining them gives the string back. */
  lemma {:induction false} JoinSplit(s: string, sep: char)
    ensures Join(Split(s, sep), sep) == s
    ensures forall p :: p in Split(s, sep) ==> sep !in p
  {
    if s != "" {
      JoinSplit(s[1..], sep);
      var rest := Split(s[1..], sep);
      assert s == [s[0]] + s[1..];
      var parts := Split(s, sep);
      if s[0] == sep {
        assert parts[1..] == rest;
      } else {
        assert parts[1..] == rest[1..];
        if |rest| > 1 {
          assert Join(rest, sep) == rest[0] + [sep] + Join(rest[1..], sep);
        }
        forall p | p in parts ensures sep !in p {
          if p != parts[0] { assert p in rest; } else { assert rest[0] in rest; }
        }
      }
    }
  }

  lemma {:induction false} SplitNoSep(s: string, sep: char)
    requires sep !in s
    ensures Split(s, sep) == [s]
  {
    if s != "" {
      assert forall c :: c in s[1..] ==> c in s;
      SplitNoSep(s[1..], sep);
      assert [s[0]] + s[1..] == s;
    }
  }

  /** A separator-free head followed by the separator is the first part. */
  lemma {:induction false} SplitCons(head: string, tail: string, sep: char)
    requires sep !in head
    ensures Split(head + [sep] + tail, sep) == [head] + Split(tail, sep)
  {
    var s := head + [sep] + tail;
    if head == "" {
      assert s[1..] == tail;
    } else {
      assert s[1..] == head[1..] + [sep] + tail;
      assert forall c :: c in head[1..] ==> c in head;
      SplitCons(head[1..], tail, sep);
      assert [head[0]] + head[1..] == head;
    }
  }

  lemma {:induction false} SplitJoin(parts: seq<string>, sep: char)
    requires parts != []
    requires forall p :: p in parts ==> sep !in p
    ensures Split(Join(parts, sep), sep) == parts
  {
    if |parts| == 1 {
      SplitNoSep(parts[0], sep);
    } else {
      SplitJoin(parts[1..], sep);
      SplitCons(parts[0], Join(parts[1..], sep), sep);
      assert parts == [parts[0]] + parts[1..];
    }
  }

  // ---------------------------------------------------------- terminated lines

  /** The text in which every line is ended by a line feed. */
  function Unlines(lines: seq<string>): string {
    if lines == [] then "" else lines[0] + "\n" + Unlines(lines[1..])
  }

  lemma {:induction false} UnlinesAppend(a: seq<string>, b: seq<string>)
    ensures Unlines(a + b) == Unlines(a) + Unlines(b)
  {
    if a == [] {
      assert a + b == b;
    } else {
      assert (a + b)[1..] == a[1..] + b;
      UnlinesAppend(a[1..], b);
    }
  }

  lemma UnlinesPush(lines: seq<string>, line: string)
    ensures Unlines(lines + [line]) == Unlines(lines) + (line + "\n")
  {
    UnlinesAppend(lines, [line]);
    assert [line][1..] == [];
    assert Unlines([line]) == line + "\n" + Unlines([]);
  }

  lemma {:induction false} SplitUnlines(lines: seq<string>)
    requires forall l :: l in lines ==> '\n' !in l
    ensures Split(Unlines(lines), '\n') == lines + [""]
  {
    if lines != [] {
      SplitUnlines(lines[1..]);
      SplitCons(lines[0], Unlines(lines[1..]), '\n');
      assert lines[0] + "\n" + Unlines(lines[1..]) == lines[0] + ['\n'] + Unlines(lines[1..]);
      assert lines == [lines[0]] + lines[1..];
    } else {
      assert lines + [""] == [""];
    }
  }

  // ---------------------------------------------------------- prefixes and cuts

  predicate HasPrefix(s: string, prefix: string) {
    |prefix| <= |s| && s[..|prefix|] == prefix
  }

  lemma HasPrefixConcat(prefix: string, tail: string)
    ensures HasPrefix(prefix + tail, prefix)
    ensures (prefix + tail)[|prefix|..] == tail
  {
  }

  /** strings.Cut for a one-character separator: the text before and after its
      first occurrence. */
  function Cut(s: string, sep: char): Option<Pair<string, string>> {
    if s == "" then None
    else if s[0] == sep then Some(Pair("", s[1..]))
    else match Cut(s[1..], sep)
      case None => None
      case Some(p) => Some(Pair([s[0]] + p.fst, p.snd))
  }

  lemma {:induction false} CutAt(head: string, tail: string, sep: char)
    requires sep !in head
    ensures Cut(head + [sep] + tail, sep) == Some(Pair(head, tail))
  {
    var s := head + [sep] + tail;
    if head == "" {
      assert s[1..] == tail;
    } else {
      assert s[1..] == head[1..] + [sep] + tail;
      assert forall c :: c in head[1..] ==> c in head;
      CutAt(head[1..], tail, sep);
      assert [head[0]] + head[1..] == head;
    }
  }

  lemma {:induction false} CutGlues(s: string, sep: char)
    ensures Cut(s, sep).None? <==> sep !in s
    ensures Cut(s, sep).Some? ==>
              && sep !in Cut(s, sep).value.fst
              && s == Cut(s, sep).value.fst + [sep] + Cut(s, sep).value.snd
  {
    if s != "" {
      CutGlues(s[1..], sep);
      assert s == [s[0]] + s[1..];
    }
  }

  // -------------------------------------------------------------------- order

  /** The order of Go's < on strings, as "at most". */
  predicate Leq(a: string, b: string) {
    if a == "" then true
    else if b == "" then false
    else if a[0] != b[0] then a[0] < b[0]
    else Leq(a[1..], b[1..])
  }

  lemma {:induction false} LeqTotal(a: string, b: string)
    ensures Leq(a, b) || Leq(b, a)
  {
    if a != "" && b != "" && a[0] == b[0] { LeqTotal(a[1..], b[1..]); }
  }

  lemma {:induction false} LeqAntisymmetric(a: string, b: string)
    requires Leq(a, b) && Leq(b, a)
    ensures a == b
  {
    if a != "" && b != "" {
      LeqAntisymmetric(a[1..], b[1..]);
      assert a == [a[0]] + a[1..] && b == [b[0]] + b[1..];
    }
  }

  lemma {:induction false} LeqTransitive(a: string, b: string, c: string)
    requires Leq(a, b) && Leq(b, c)
    ensures Leq(a, c)
  {
    if a != "" && b != "" && c != "" && a[0] == b[0] == c[0] {
      LeqTransitive(a[1..], b[1..], c[1..]);
    }
  }

  // --------------------------------------------------------------- white space

  /** unicode.IsSpace. */
  predicate IsSpace(c: char) {
    var n := c as int;
    || 9 <= n <= 13 || n == 0x20 || n == 0x85 || n == 0xA0 || n == 0x1680
    || 0x2000 <= n <= 0x200A || n == 0x2028 || n == 0x2029
    || n == 0x202F || n == 0x205F || n == 0x3000
  }

  function TrimLeft(s: string): string {
    if s != "" && IsSpace(s[0]) then TrimLeft(s[1..]) else s
  }

  function TrimRight(s: string): string {
    if s != "" && IsSpace(s[|s| - 1]) then TrimRight(s[..|s| - 1]) else s
  }

  /** strings.TrimSpace. */
  function TrimSpace(s: string): string {
    TrimRight(TrimLeft(s))
  }
}
