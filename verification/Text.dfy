/** Text as Unicode scalar values, measured in UTF-8 bytes (section 3 of RFC 3629). */
module Text {

  /** How many bytes one scalar value takes in UTF-8. */
  function Utf8Width(c: char): (n: nat)
    ensures 1 <= n <= 4
  {
    var v := c as int;
    if v < 0x80 then 1 else if v < 0x800 then 2 else if v < 0x10000 then 3 else 4
  }

  /** How many bytes a string takes in UTF-8. */
  function Utf8Bytes(s: string): nat {
    if s == [] then 0 else Utf8Bytes(s[..|s| - 1]) + Utf8Width(s[|s| - 1])
  }

  lemma {:induction false} Utf8BytesConcat(a: string, b: string)
    ensures Utf8Bytes(a + b) == Utf8Bytes(a) + Utf8Bytes(b)
  {
    if b == [] {
      assert a + b == a;
    } else {
      var init := b[..|b| - 1];
      Utf8BytesConcat(a, init);
      assert (a + b)[..|a + b| - 1] == a + init;
    }
  }

  /** ASCII text takes one byte per character. */
  lemma {:induction false} Utf8BytesAscii(s: string)
    requires forall i :: 0 <= i < |s| ==> s[i] as int < 0x80
    ensures Utf8Bytes(s) == |s|
  {
    if s != [] {
      Utf8BytesAscii(s[..|s| - 1]);
    }
  }

  // ----- parts and separators

  function Join(separator: char, parts: seq<string>): string {
    if parts == [] then ""
    else if |parts| == 1 then parts[0]
    else Join(separator, parts[..|parts| - 1]) + [separator] + parts[|parts| - 1]
  }

  /** One more character: a separator begins a part, any other extends the last one. */
  function AddChar(separator: char, parts: seq<string>, c: char): (r: seq<string>)
    requires parts != []
    ensures r != []
  {
    var last := |parts| - 1;
    if c == separator then parts + [""] else parts[..last] + [parts[last] + [c]]
  }

  /** The parts between separators of the first `n` characters. */
  function SplitTo(separator: char, s: string, n: nat): (parts: seq<string>)
    requires n <= |s|
    ensures parts != []
    decreases n
  {
    if n == 0 then [""] else AddChar(separator, SplitTo(separator, s, n - 1), s[n - 1])
  }

  function Split(separator: char, s: string): (parts: seq<string>)
    ensures parts != []
  {
    SplitTo(separator, s, |s|)
  }

  lemma {:induction false} SplitPrefix(separator: char, a: string, b: string, n: nat)
    requires n <= |a|
    ensures SplitTo(separator, a + b, n) == SplitTo(separator, a, n)
  {
    if n > 0 {
      SplitPrefix(separator, a, b, n - 1);
      assert (a + b)[n - 1] == a[n - 1];
    }
  }

  lemma {:induction false} SplitOne(separator: char, part: string)
    requires separator !in part
    ensures Split(separator, part) == [part]
  {
    if part != "" {
      var init, c := part[..|part| - 1], part[|part| - 1];
      SplitOne(separator, init);
      assert part == init + [c];
      SplitPrefix(separator, init, [c], |init|);
    }
  }

  lemma {:induction false} SplitLast(separator: char, s: string, part: string)
    requires separator !in part
    ensures Split(separator, s + [separator] + part) == Split(separator, s) + [part]
  {
    var whole := s + [separator] + part;
    if part == "" {
      assert whole == s + [separator];
      SplitPrefix(separator, s, [separator], |s|);
    } else {
      var init, c := part[..|part| - 1], part[|part| - 1];
      SplitLast(separator, s, init);
      assert whole == (s + [separator] + init) + [c];
      SplitPrefix(separator, s + [separator] + init, [c], |whole| - 1);
      assert part == init + [c];
    }
  }

  /** Joining parts and splitting again gives the parts back. */
  lemma {:induction false} SplitJoin(separator: char, parts: seq<string>)
    requires parts != [] && forall i :: 0 <= i < |parts| ==> separator !in parts[i]
    ensures Split(separator, Join(separator, parts)) == parts
  {
    var last := parts[|parts| - 1];
    if |parts| == 1 {
      SplitOne(separator, last);
    } else {
      SplitJoin(separator, parts[..|parts| - 1]);
      SplitLast(separator, Join(separator, parts[..|parts| - 1]), last);
    }
  }

  /** The first parts of a list, the last of them perhaps cut short. */
  predicate CutOf(parts: seq<string>, whole: seq<string>) {
    && 0 < |parts| <= |whole|
    && parts[..|parts| - 1] == whole[..|parts| - 1]
    && parts[|parts| - 1] <= whole[|parts| - 1]
  }

  lemma CutOfTransitive(a: seq<string>, b: seq<string>, c: seq<string>)
    requires CutOf(a, b) && CutOf(b, c)
    ensures CutOf(a, c)
  {
    assert forall i :: 0 <= i < |a| - 1 ==> a[i] == a[..|a| - 1][i] == b[..|a| - 1][i] == b[i];
    assert forall i :: 0 <= i < |b| - 1 ==> b[i] == b[..|b| - 1][i] == c[..|b| - 1][i] == c[i];
  }

  /** Cutting a text cuts its parts. */
  lemma {:induction false} SplitOfPrefix(separator: char, s: string, n: nat)
    requires n <= |s|
    ensures CutOf(SplitTo(separator, s, n), Split(separator, s))
    decreases |s| - n
  {
    if n < |s| {
      SplitOfPrefix(separator, s, n + 1);
      CutOfTransitive(SplitTo(separator, s, n), SplitTo(separator, s, n + 1), Split(separator, s));
    }
  }
}
