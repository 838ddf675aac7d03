/**
 * Go's byte and string as the front end uses them. A Go string is an immutable sequence
 * of bytes; a byte is written here as the char with the same code, so that the byte
 * literals of the program ('=', ';', 'a') and its string literals ("let") read as they do
 * in Go.
 */
module Bytes {
  import opened Wrappers

  /** A Go byte. */
  type byte = c: char | c as int < 256 witness '\0'

  /** A Go string: a sequence of bytes. */
  type Bytes = seq<byte>

  /** The byte 0, which the lexer uses as its end-of-input sentinel. */
  const NUL: byte := '\0'

  predicate IsAscii(b: byte) {
    b as int < 0x80
  }

  /**
   * Go's conversion string(b) of a byte b. Go reads the byte as the Unicode code point
   * with that number and yields its UTF-8 encoding: one byte below 0x80, two bytes
   * (0xC2 or 0xC3, then a continuation byte) from 0x80 up.
   */
  function RuneString(b: byte): (s: Bytes)
    ensures |s| == if IsAscii(b) then 1 else 2
    ensures IsAscii(b) <==> s == [b]
    ensures s[0] != NUL <==> b != NUL
  {
    if b as int < 0x80 then [b]
    else [(0xC0 + b as int / 64) as char, (0x80 + b as int % 64) as char]
  }

  /** The inverse of RuneString: decodes a one- or two-byte UTF-8 sequence of a code point below 256. */
  function DecodeRune(s: Bytes): Option<byte> {
    if |s| == 1 && IsAscii(s[0]) then Some(s[0])
    else if |s| == 2 && 0xC2 <= s[0] as int <= 0xC3 && 0x80 <= s[1] as int < 0xC0 then
      Some(((s[0] as int - 0xC0) * 64 + (s[1] as int - 0x80)) as char)
    else None
  }

  /** string(b) loses nothing: decoding it gives b back. */
  lemma DecodeRuneString(b: byte)
    ensures DecodeRune(RuneString(b)) == Some(b)
  {
    if !IsAscii(b) {
      var s := RuneString(b);
      assert s[0] as int == 0xC0 + b as int / 64 && s[1] as int == 0x80 + b as int % 64;
      assert (s[0] as int - 0xC0) * 64 + (s[1] as int - 0x80) == b as int;
    }
  }

  /** string(b) is determined by b and determines it. */
  lemma RuneStringInjective(a: byte, b: byte)
    ensures RuneString(a) == RuneString(b) <==> a == b
  {
    DecodeRuneString(a);
    DecodeRuneString(b);
  }

  /** The bytes of s, each passed through string(b) and concatenated. */
  function Encode(s: Bytes): (r: Bytes)
    ensures |r| >= |s|
  {
    if s == [] then [] else RuneString(s[0]) + Encode(s[1..])
  }

  /** Encoding leaves an all-ASCII string as it is. */
  lemma {:induction false} EncodeAscii(s: Bytes)
    requires forall i :: 0 <= i < |s| ==> IsAscii(s[i])
    ensures Encode(s) == s
  {
    if s != [] {
      EncodeAscii(s[1..]);
    }
  }

  /** Encoding distributes over concatenation. */
  lemma {:induction false} EncodeAppend(s: Bytes, t: Bytes)
    ensures Encode(s + t) == Encode(s) + Encode(t)
  {
    if s == [] {
      assert s + t == t;
    } else {
      assert (s + t)[1..] == s[1..] + t;
      EncodeAppend(s[1..], t);
    }
  }

  /** The four bytes the lexer treats as insignificant white space. */
  predicate IsSpace(b: byte) {
    b == ' ' || b == '\t' || b == '\n' || b == '\r'
  }

  /** s with every white-space byte removed, the other bytes in order. */
  function RemoveSpaces(s: Bytes): (r: Bytes)
    ensures |r| <= |s|
    ensures forall i :: 0 <= i < |r| ==> !IsSpace(r[i])
  {
    if s == [] then []
    else if IsSpace(s[0]) then RemoveSpaces(s[1..])
    else [s[0]] + RemoveSpaces(s[1..])
  }

  /** Removing white space distributes over concatenation. */
  lemma {:induction false} RemoveSpacesAppend(s: Bytes, t: Bytes)
    ensures RemoveSpaces(s + t) == RemoveSpaces(s) + RemoveSpaces(t)
  {
    if s == [] {
      assert s + t == t;
    } else {
      assert (s + t)[1..] == s[1..] + t;
      RemoveSpacesAppend(s[1..], t);
    }
  }

  /** Removing white space is the identity exactly on strings that hold none. */
  lemma {:induction false} RemoveSpacesNone(s: Bytes)
    ensures RemoveSpaces(s) == s <==> forall i :: 0 <= i < |s| ==> !IsSpace(s[i])
  {
    if s != [] {
      RemoveSpacesNone(s[1..]);
      if IsSpace(s[0]) {
        assert |RemoveSpaces(s)| < |s|;
      } else {
        assert forall i :: 1 <= i < |s| ==> s[i] == s[1..][i - 1];
      }
    }
  }

  /** Removing white space from a string made only of white space leaves nothing. */
  lemma {:induction false} RemoveSpacesAll(s: Bytes)
    requires forall i :: 0 <= i < |s| ==> IsSpace(s[i])
    ensures RemoveSpaces(s) == []
  {
    if s != [] {
      RemoveSpacesAll(s[1..]);
    }
  }
}
