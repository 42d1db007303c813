/** Results, options and machine integers shared by every module. */
module Base {

  datatype Option<+T> = None | Some(value: T)

  /** A failure-compatible result, so that `:-` plays the part of Rust's `?`. */
  datatype Result<+T, +E> = Ok(value: T) | Err(error: E) {

    predicate IsFailure() {
      Err?
    }

    function PropagateFailure<U>(): Result<U, E>
      requires Err?
    {
      Err(error)
    }

    function Extract(): T
      requires Ok?
    {
      value
    }
  }

  const U32_LIMIT: int := 0x1_0000_0000
  const U64_LIMIT: int := 0x1_0000_0000_0000_0000

  newtype byte = x: int | 0 <= x < 256
  type u32 = n: nat | n < U32_LIMIT
  type u64 = n: nat | n < U64_LIMIT
}

/** Byte strings: ASCII literals, and the search for the first CRLF pair. */
module Bytes {
  import opened Base

  const CR: byte := 13
  const LF: byte := 10
  const SP: byte := 32
  const CRLF: seq<byte> := [CR, LF]

  /** The bytes of an ASCII string literal. */
  function Ascii(s: string): (b: seq<byte>)
    ensures |b| == |s|
    ensures forall i :: 0 <= i < |s| && s[i] < 128 as char ==> b[i] as int == s[i] as int
  {
    seq(|s|, i requires 0 <= i < |s| => (s[i] as int % 256) as byte)
  }

  lemma AsciiAppend(s: string, t: string)
    ensures Ascii(s + t) == Ascii(s) + Ascii(t)
  {
  }

  /** The separators, in the letters of the protocol. */
  lemma Separators()
    ensures CRLF == Ascii("\r\n") && [SP] == Ascii(" ")
  {
  }

  predicate CrlfAt(s: seq<byte>, i: nat) {
    i + 1 < |s| && s[i] == CR && s[i + 1] == LF
  }

  ghost predicate NoCrlf(s: seq<byte>) {
    forall i: nat :: !CrlfAt(s, i)
  }

  /** The position of the first CRLF pair. */
  function FindCrlf(s: seq<byte>): (r: Option<nat>)
    ensures r.None? ==> NoCrlf(s)
    ensures r.Some? ==> CrlfAt(s, r.value) && forall i: nat :: i < r.value ==> !CrlfAt(s, i)
  {
    if |s| < 2 then None
    else if CrlfAt(s, 0) then Some(0)
    else
      var r := FindCrlf(s[1..]);
      assert forall i: nat :: 0 < i ==> CrlfAt(s, i) == CrlfAt(s[1..], i - 1);
      if r.None? then None else Some(r.value + 1)
  }

  lemma NoCrlfSlice(s: seq<byte>, lo: nat, hi: nat)
    requires lo <= hi <= |s| && NoCrlf(s)
    ensures NoCrlf(s[lo..hi])
  {
    forall i: nat ensures !CrlfAt(s[lo..hi], i) {
      if i + 1 < hi - lo {
        assert !CrlfAt(s, lo + i);
      }
    }
  }

  /** Up to and including its CR, nothing before the first CRLF holds one. */
  lemma BeforeFirstCrlf(s: seq<byte>, n: nat)
    requires FindCrlf(s).Some? && n <= FindCrlf(s).value + 1
    ensures NoCrlf(s[..n])
  {
    hide FindCrlf;
    var head := s[..n];
    forall i: nat ensures !CrlfAt(head, i) {
      if i + 1 < n {
        assert !CrlfAt(s, i);
      }
    }
  }

  /** The first CRLF is still found with nothing after it. */
  lemma FindCrlfPrefix(s: seq<byte>)
    requires FindCrlf(s).Some?
    ensures var k := FindCrlf(s).value; FindCrlf(s[..k + 2]) == Some(k)
  {
    hide FindCrlf;
    var k := FindCrlf(s).value;
    BeforeFirstCrlf(s, k);
    TextFound(s[..k]);
    assert s[..k + 2] == s[..k] + CRLF;
  }

  /** A line's text is found again in front of anything, if it has no CRLF. */
  lemma LineFound(line: seq<byte>, rest: seq<byte>)
    requires NoCrlf(line)
    ensures FindCrlf(line + CRLF + rest) == Some(|line|)
    ensures (line + CRLF + rest)[..|line|] == line
    ensures (line + CRLF + rest)[|line| + 2..] == rest
  {
    var s := line + CRLF + rest;
    assert CrlfAt(s, |line|);
    forall i: nat | i < |line| ensures !CrlfAt(s, i) {
      assert !CrlfAt(line, i);
      assert s[i] == line[i];
    }
  }

  lemma TextFound(text: seq<byte>)
    requires NoCrlf(text)
    ensures FindCrlf(text + CRLF) == Some(|text|)
    ensures (text + CRLF)[..|text|] == text && (text + CRLF)[|text| + 2..] == []
  {
    assert text + CRLF + [] == text + CRLF;
    LineFound(text, []);
  }

  /** A text with a CRLF in it is a CRLF-free part, a CRLF and some more. */
  lemma CutAtCrlf(text: seq<byte>) returns (part: seq<byte>, more: seq<byte>)
    requires !NoCrlf(text)
    ensures NoCrlf(part) && text == part + CRLF + more
    ensures part == [] ==> CrlfAt(text, 0)
  {
    var k := FindCrlf(text).value;
    part, more := text[..k], text[k + 2..];
    BeforeFirstCrlf(text, k);
  }

  /** Once found, the first CRLF stays the first whatever is appended. */
  lemma FindCrlfExtends(s: seq<byte>, t: seq<byte>)
    requires FindCrlf(s).Some?
    ensures FindCrlf(s + t) == FindCrlf(s)
  {
    var k := FindCrlf(s).value;
    assert CrlfAt(s + t, k);
    forall i: nat | i < k ensures !CrlfAt(s + t, i) {
      assert !CrlfAt(s, i);
    }
  }

  /** The scan over adjacent pairs, as the decoder performs it. */
  method FindPosition(s: seq<byte>) returns (r: Option<nat>)
    ensures r == FindCrlf(s)
  {
    var i := 0;
    while i + 1 < |s|
      invariant forall j: nat :: j < i ==> !CrlfAt(s, j)
    {
      if s[i] == CR && s[i + 1] == LF {
        assert CrlfAt(s, i);
        return Some(i);
      }
      i := i + 1;
    }
    return None;
  }

  /** The position of the first space, or the length when there is none. */
  function FindSpace(s: seq<byte>): (n: nat)
    ensures n <= |s|
    ensures forall i :: 0 <= i < n ==> s[i] != SP
    ensures n < |s| ==> s[n] == SP
  {
    if s == [] || s[0] == SP then 0 else 1 + FindSpace(s[1..])
  }

  lemma FindSpaceIs(s: seq<byte>, n: nat)
    requires n <= |s|
    requires forall i :: 0 <= i < n ==> s[i] != SP
    requires n < |s| ==> s[n] == SP
    ensures FindSpace(s) == n
  {
  }

  /** The scan of `position`, byte by byte. */
  method SpacePosition(s: seq<byte>) returns (n: nat)
    ensures n == FindSpace(s)
  {
    n := 0;
    while n < |s| && s[n] != SP
      invariant n <= |s|
      invariant forall i :: 0 <= i < n ==> s[i] != SP
    {
      n := n + 1;
    }
    FindSpaceIs(s, n);
  }
}

/** The growable byte buffer that the codec reads from and writes to. */
module Buffers {
  import opened Base

  class Buffer {
    var data: seq<byte>

    constructor ()
      ensures data == []
    {
      data := [];
    }

    /** Removes and returns the first `n` bytes; panics unless they exist. */
    method SplitTo(n: nat) returns (head: seq<byte>)
      requires n <= |data|
      modifies this
      ensures head == old(data)[..n] && data == old(data)[n..]
    {
      head := data[..n];
      data := data[n..];
    }

    /** Drops the first `n` bytes; panics unless they exist. */
    method Advance(n: nat)
      requires n <= |data|
      modifies this
      ensures data == old(data)[n..]
    {
      data := data[n..];
    }

    method PutSlice(bytes: seq<byte>)
      modifies this
      ensures data == old(data) + bytes
    {
      data := data + bytes;
    }
  }
}
