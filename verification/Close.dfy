/** Close codes and the close payload, src/ws/close.rs (sections 5.5.1 and 7.4 of RFC 6455). */
module Close {
  import opened Bytes

  const NORMAL := 1000
  const PROTOCOL_ERROR := 1002
  const NO_STATUS := 1005
  const INVALID_PAYLOAD := 1007
  const MESSAGE_TOO_BIG := 1009

  /** Codes that may travel in a close payload, in either direction. */
  predicate ValidCode(code: nat) {
    1000 <= code <= 1003 || 1007 <= code <= 1011 || 3000 <= code <= 4999
  }

  datatype CloseError = OneByte | InvalidUtf8 | InvalidCode(code: nat)

  datatype CloseResult = NoStatus | Status(code: nat, reason: bytes) | CloseBad(error: CloseError)

  function ParseClosePayload(utf8: bytes -> bool, payload: bytes): (r: CloseResult) {
    if payload == [] then NoStatus
    else if |payload| == 1 then CloseBad(OneByte)
    else
      var code := FromBE(payload[..2]);
      if !ValidCode(code) then CloseBad(InvalidCode(code))
      else if !utf8(payload[2..]) then CloseBad(InvalidUtf8)
      else Status(code, payload[2..])
  }

  ghost function CloseBytes(code: nat, reason: bytes): (payload: bytes)
    requires code < 0x1_0000
  {
    Pow256Values();
    ToBE(code, 2) + reason
  }

  /** What an endpoint may send comes back from the parser unchanged. */
  lemma CloseRoundTrip(utf8: bytes -> bool, code: nat, reason: bytes)
    requires ValidCode(code) && utf8(reason)
    ensures ParseClosePayload(utf8, CloseBytes(code, reason)) == Status(code, reason)
  {
    Pow256Values();
    var payload := CloseBytes(code, reason);
    assert payload[..2] == ToBE(code, 2) && payload[2..] == reason;
  }

  /** The code is in network order, and the reason follows it. */
  lemma CloseLayout(code: nat, reason: bytes)
    requires code < 0x1_0000
    ensures CloseBytes(code, reason) == [code / 256, code % 256] + reason
  {
    BETwo(code);
  }

  /** encode_close_payload, into a caller's buffer. */
  method EncodeClosePayload(dst: array<byte>, code: nat, reason: bytes) returns (n: nat)
    requires code < 0x1_0000
    requires |reason| <= 123 && dst.Length >= 2 + |reason|
    modifies dst
    ensures n <= dst.Length
    ensures dst[..n] == CloseBytes(code, reason)
    ensures forall i :: n <= i < dst.Length ==> dst[i] == old(dst[i])
  {
    Pow256Values();
    var word := WriteBE(code, 2);
    dst[0], dst[1] := word[0], word[1];
    forall i | 0 <= i < |reason| {
      dst[2 + i] := reason[i];
    }
    n := 2 + |reason|;
    assert dst[..2] == word;
    assert dst[..n] == word + reason;
  }

  lemma ParsedCodeIsSmall(utf8: bytes -> bool, payload: bytes)
    ensures ParseClosePayload(utf8, payload).Status? ==>
              ParseClosePayload(utf8, payload).code < 0x1_0000 && ParseClosePayload(utf8, payload).code != NO_STATUS
  {
  }
}
