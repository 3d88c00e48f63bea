/** Bytes and the end-of-line rewriting the interfaces apply to them. */
module Bytes {

  newtype byte = b: int | 0 <= b < 256

  const ETX: byte := 3    // Ctrl-C
  const BS: byte := 8     // backspace
  const LF: byte := 10
  const CR: byte := 13
  const DEL: byte := 127
  const CRLF: seq<byte> := [CR, LF]

  /** Python's `data.replace(bytes([b]), r)`: every occurrence of the byte `b`
      is replaced by `r`, all other bytes are kept in order. */
  function ReplaceByte(s: seq<byte>, b: byte, r: seq<byte>): (t: seq<byte>)
    ensures b !in s ==> t == s
  {
    if s == [] then []
    else (if s[0] == b then r else [s[0]]) + ReplaceByte(s[1..], b, r)
  }

  /** Undoes `ReplaceByte(_, CR, CRLF)`: each `\r\n` becomes `\r` again. */
  function CollapseCrLf(t: seq<byte>): seq<byte>
  {
    if |t| >= 2 && t[0] == CR && t[1] == LF then [CR] + CollapseCrLf(t[2..])
    else if t == [] then []
    else [t[0]] + CollapseCrLf(t[1..])
  }

  /** Converting `\r` to `\r\n` loses nothing, including an `\r\n` already present
      (which becomes `\r\n\n`). */
  lemma {:induction false} CollapseExpandsCr(s: seq<byte>)
    ensures CollapseCrLf(ReplaceByte(s, CR, CRLF)) == s
  {
    if s != [] {
      var rest := ReplaceByte(s[1..], CR, CRLF);
      CollapseExpandsCr(s[1..]);
      if s[0] == CR {
        assert ReplaceByte(s, CR, CRLF) == [CR, LF] + rest;
        assert ([CR, LF] + rest)[2..] == rest;
      } else {
        assert ReplaceByte(s, CR, CRLF) == [s[0]] + rest;
        assert ([s[0]] + rest)[1..] == rest;
      }
    }
  }

  /** Undoes `ReplaceByte(_, LF, CRLF)`: each `\r\n` becomes `\n` again. */
  function DropCrBeforeLf(t: seq<byte>): seq<byte>
  {
    if |t| >= 2 && t[0] == CR && t[1] == LF then [LF] + DropCrBeforeLf(t[2..])
    else if t == [] then []
    else [t[0]] + DropCrBeforeLf(t[1..])
  }

  lemma {:induction false} ExpandedLfNeverStartsWithLf(s: seq<byte>)
    ensures ReplaceByte(s, LF, CRLF) == [] || ReplaceByte(s, LF, CRLF)[0] != LF
  {
  }

  /** Converting `\n` to `\r\n` loses nothing, even next to a `\r` already present. */
  lemma {:induction false} DropExpandsLf(s: seq<byte>)
    ensures DropCrBeforeLf(ReplaceByte(s, LF, CRLF)) == s
  {
    if s != [] {
      var rest := ReplaceByte(s[1..], LF, CRLF);
      DropExpandsLf(s[1..]);
      if s[0] == LF {
        assert ReplaceByte(s, LF, CRLF) == [CR, LF] + rest;
        assert ([CR, LF] + rest)[2..] == rest;
      } else {
        ExpandedLfNeverStartsWithLf(s[1..]);
        assert ReplaceByte(s, LF, CRLF) == [s[0]] + rest;
        assert ([s[0]] + rest)[1..] == rest;
      }
    }
  }
}
