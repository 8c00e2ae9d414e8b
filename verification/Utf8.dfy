/** UTF-8 encoding of JavaScript strings, taken one code point at a time.
    A lone surrogate is a code point of its own and encodes as U+FFFD, as Node's Buffer does. */
module Utf8 {
  type Char = c: int | 0 <= c <= 0x10FFFF
  type Byte = b: int | 0 <= b < 256
  type Text = seq<Char>
  type Bytes = seq<Byte>

  const REPLACEMENT: Char := 0xFFFD

  predicate IsSurrogate(c: Char) { 0xD800 <= c < 0xE000 }

  /** A continuation byte, `(b & 0xc0) === 0x80`. */
  predicate IsContinuation(b: Byte) { 0x80 <= b < 0xC0 }

  function Width(c: Char): (w: nat)
    ensures 1 <= w <= 4
  {
    if c < 0x80 then 1 else if c < 0x800 then 2 else if c < 0x10000 then 3 else 4
  }

  /** Section 3 of RFC 3629. */
  function CharBytes(c: Char): (r: Bytes)
    ensures |r| == Width(c)
    ensures !IsContinuation(r[0])
    ensures forall i :: 1 <= i < |r| ==> IsContinuation(r[i])
  {
    if c < 0x80 then [c]
    else if c < 0x800 then [0xC0 + c / 0x40, 0x80 + c % 0x40]
    else if IsSurrogate(c) then [0xEF, 0xBF, 0xBD]
    else if c < 0x10000 then [0xE0 + c / 0x1000, 0x80 + c / 0x40 % 0x40, 0x80 + c % 0x40]
    else [0xF0 + c / 0x40000, 0x80 + c / 0x1000 % 0x40, 0x80 + c / 0x40 % 0x40, 0x80 + c % 0x40]
  }

  function Encode(t: Text): (r: Bytes)
    ensures |r| == ByteLength(t)
  {
    if t == [] then [] else CharBytes(t[0]) + Encode(t[1..])
  }

  function ByteLength(t: Text): nat {
    if t == [] then 0 else Width(t[0]) + ByteLength(t[1..])
  }

  lemma {:induction false} EncodeAppend(s: Text, t: Text)
    ensures Encode(s + t) == Encode(s) + Encode(t)
    ensures ByteLength(s + t) == ByteLength(s) + ByteLength(t)
  {
    if s == [] {
      assert s + t == t;
    } else {
      var first, rest := CharBytes(s[0]), s[1..];
      hide CharBytes, Width;
      EncodeAppend(rest, t);
      assert (s + t)[1..] == rest + t && (s + t)[0] == s[0];
      assert Encode(s + t) == first + Encode(rest + t);
      Regroup(first, Encode(rest), Encode(t));
    }
  }

  lemma {:induction false} Regroup(a: Bytes, b: Bytes, c: Bytes)
    ensures a + (b + c) == (a + b) + c
  {
  }

  /** The number of leading characters of `t` that lie wholly within its first `n` bytes. */
  function CharsWithin(t: Text, n: nat): (k: nat)
    ensures k <= |t|
    ensures ByteLength(t[..k]) <= n
    ensures k < |t| ==> n < ByteLength(t[..k + 1])
  {
    if t == [] || n < Width(t[0]) then
      assert t != [] ==> t[..1] == [t[0]];
      0
    else
      var k := CharsWithin(t[1..], n - Width(t[0]));
      assert t[..k + 1] == [t[0]] + t[1..][..k];
      assert k + 1 < |t| ==> t[..k + 2] == [t[0]] + t[1..][..k + 1];
      k + 1
  }

  /** Byte `n` starts a character of `t`, or is its end. */
  ghost predicate Boundary(t: Text, n: nat) { ByteLength(t[..CharsWithin(t, n)]) == n }

  lemma {:induction false} SplitBytes(t: Text, k: nat)
    requires k <= |t|
    ensures ByteLength(t) == ByteLength(t[..k]) + ByteLength(t[k..])
    ensures Encode(t) == Encode(t[..k]) + Encode(t[k..])
  {
    EncodeAppend(t[..k], t[k..]);
    assert t[..k] + t[k..] == t;
  }

  /** Every prefix of whole characters ends on a boundary, and is found by counting bytes. */
  lemma {:induction false} PrefixIsBoundary(t: Text, k: nat)
    requires k <= |t|
    ensures CharsWithin(t, ByteLength(t[..k])) == k && Boundary(t, ByteLength(t[..k]))
  {
    if k == 0 {
    } else {
      PrefixIsBoundary(t[1..], k - 1);
      assert t[..k] == [t[0]] + t[1..][..k - 1];
    }
  }

  /** A byte offset is a boundary exactly when the byte there is not a continuation byte. */
  lemma {:induction false} BoundaryByByte(t: Text, n: nat)
    requires n <= ByteLength(t)
    ensures Boundary(t, n) <==> n == ByteLength(t) || !IsContinuation(Encode(t)[n])
  {
    if t == [] {
    } else {
      assert Encode(t) == CharBytes(t[0]) + Encode(t[1..]);
      if n < Width(t[0]) {
      } else {
        BoundaryByByte(t[1..], n - Width(t[0]));
        var k := CharsWithin(t[1..], n - Width(t[0]));
        assert t[..k + 1] == [t[0]] + t[1..][..k];
      }
    }
  }

  /** Decoding the bytes of `t` from byte `n` on: a character cut in two leaves one
      replacement character for each of its remaining continuation bytes. */
  function DecodeFrom(t: Text, n: nat): Text
    requires n <= ByteLength(t)
  {
    if t == [] then []
    else if n >= Width(t[0]) then DecodeFrom(t[1..], n - Width(t[0]))
    else if n == 0 then seq(|t|, i requires 0 <= i < |t| => if IsSurrogate(t[i]) then REPLACEMENT else t[i])
    else seq(Width(t[0]) - n, _ => REPLACEMENT) + DecodeFrom(t[1..], 0)
  }

  lemma {:induction false} EncodeScrubbed(t: Text)
    ensures Encode(DecodeFrom(t, 0)) == Encode(t)
  {
    if t != [] {
      EncodeScrubbed(t[1..]);
      assert DecodeFrom(t, 0)[1..] == DecodeFrom(t[1..], 0);
    }
  }

  lemma {:induction false} Replacements(n: nat, t: Text)
    ensures ByteLength(seq(n, _ => REPLACEMENT) + t) == 3 * n + ByteLength(t)
  {
    var s: Text := seq(n, _ => REPLACEMENT);
    if n == 0 {
      assert s + t == t;
    } else {
      Replacements(n - 1, t);
      assert (s + t)[1..] == seq(n - 1, _ => REPLACEMENT) + t;
    }
  }

  /** Decoding the tail of an encoding and encoding it again gives that tail back exactly
      when the tail starts on a character boundary. */
  lemma {:induction false} DecodeFromFaithful(t: Text, n: nat)
    requires n <= ByteLength(t)
    ensures Boundary(t, n) <==> Encode(DecodeFrom(t, n)) == Encode(t)[n..]
    ensures !Boundary(t, n) ==> ByteLength(DecodeFrom(t, n)) > ByteLength(t) - n
  {
    if t == [] {
    } else if n >= Width(t[0]) {
      DecodeFromFaithful(t[1..], n - Width(t[0]));
      SkipFirst(t, n);
    } else if n == 0 {
      EncodeScrubbed(t);
      assert Encode(t)[0..] == Encode(t);
    } else {
      EncodeScrubbed(t[1..]);
      Replacements(Width(t[0]) - n, DecodeFrom(t[1..], 0));
    }
  }

  lemma {:induction false} SkipFirst(t: Text, n: nat)
    requires t != [] && Width(t[0]) <= n <= ByteLength(t)
    ensures Boundary(t, n) <==> Boundary(t[1..], n - Width(t[0]))
    ensures Encode(t)[n..] == Encode(t[1..])[n - Width(t[0])..]
  {
    var k := CharsWithin(t[1..], n - Width(t[0]));
    assert t[..k + 1] == [t[0]] + t[1..][..k];
    assert Encode(t) == CharBytes(t[0]) + Encode(t[1..]);
  }

  /** The continuation bytes at the start, which belong to no character. */
  function Orphans(b: Bytes): (n: nat)
    ensures n <= |b|
  {
    if b == [] || !IsContinuation(b[0]) then 0 else 1 + Orphans(b[1..])
  }

  /** The bytes of the text that some bytes decode to: each orphan becomes a replacement character. */
  function DecodedLength(b: Bytes): nat { |b| + 2 * Orphans(b) }

  lemma {:induction false} OrphansFirst(a: Bytes, b: Bytes)
    requires (forall i :: 0 <= i < |a| ==> IsContinuation(a[i])) && (b != [] ==> !IsContinuation(b[0]))
    ensures Orphans(a + b) == |a|
  {
    if a == [] { assert a + b == b; } else { assert (a + b)[1..] == a[1..] + b; OrphansFirst(a[1..], b); }
  }

  /** The length of what the tail of an encoding decodes to. */
  lemma {:induction false} DecodedTail(t: Text, n: nat)
    requires n <= ByteLength(t)
    ensures ByteLength(DecodeFrom(t, n)) == DecodedLength(Encode(t)[n..])
  {
    if t == [] {
    } else if n >= Width(t[0]) {
      DecodedTail(t[1..], n - Width(t[0]));
      SkipFirst(t, n);
    } else {
      var a, b := CharBytes(t[0])[n..], Encode(t[1..]);
      assert Encode(t)[n..] == a + b;
      assert b != [] ==> b[0] == CharBytes(t[1..][0])[0];
      if n == 0 {
        EncodeScrubbed(t);
        assert !IsContinuation((a + b)[0]);
      } else {
        EncodeScrubbed(t[1..]);
        OrphansFirst(a, b);
        Replacements(Width(t[0]) - n, DecodeFrom(t[1..], 0));
      }
    }
  }

  lemma {:induction false} AsciiLength(n: nat, c: Char)
    requires c < 0x80
    ensures ByteLength(seq(n, _ => c)) == n
  {
    if n > 0 {
      var s: Text := seq(n, _ => c);
      AsciiLength(n - 1, c);
      assert s[1..] == seq(n - 1, _ => c);
    }
  }
}
