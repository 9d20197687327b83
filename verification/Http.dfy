/** Where the upgrade response ends, src/http.rs. */
module Http {
  import opened Bytes

  const MAX_RESPONSE_HEADER_BYTES := 16 * 1024

  const CRLF_CRLF: bytes := [13, 10, 13, 10]

  /** find_double_crlf: the first position of the blank line, from position `from` on. */
  function FindDoubleCrlf(s: bytes, from: nat := 0): (r: Option<nat>)
    ensures r.Some? ==> from <= r.value && r.value + 4 <= |s| && s[r.value..r.value + 4] == CRLF_CRLF
    ensures forall i {:trigger s[i..i + 4]} ::
              from <= i && i + 4 <= (if r.Some? then r.value + 3 else |s|) ==> s[i..i + 4] != CRLF_CRLF
    decreases |s| - from
  {
    if from + 4 > |s| then None
    else if s[from..from + 4] == CRLF_CRLF then Some(from)
    else FindDoubleCrlf(s, from + 1)
  }

  lemma {:induction false} FindStable(s: bytes, more: bytes, from: nat := 0)
    requires FindDoubleCrlf(s, from).Some?
    ensures FindDoubleCrlf(s + more, from) == FindDoubleCrlf(s, from)
    decreases |s| - from
  {
    assert (s + more)[from..from + 4] == s[from..from + 4];
    if s[from..from + 4] != CRLF_CRLF {
      FindStable(s, more, from + 1);
    }
  }

  datatype Response = NeedMore | TooLarge | Response(headerEnd: nat)

  /** parse_response up to the point where the header block is known. */
  function ParseResponse(input: bytes): (r: Response)
    ensures r.Response? ==> r.headerEnd + 4 <= |input|
  {
    var window := if |input| <= MAX_RESPONSE_HEADER_BYTES then |input| else MAX_RESPONSE_HEADER_BYTES;
    match FindDoubleCrlf(input[..window])
    case None => if |input| > MAX_RESPONSE_HEADER_BYTES then TooLarge else NeedMore
    case Some(end) => Response(end)
  }

  lemma ResponseStable(input: bytes, more: bytes)
    requires !ParseResponse(input).NeedMore?
    ensures ParseResponse(input + more) == ParseResponse(input)
    ensures ParseResponse(input).Response? ==>
              (input + more)[..ParseResponse(input).headerEnd] == input[..ParseResponse(input).headerEnd]
  {
    var all := input + more;
    if |input| <= MAX_RESPONSE_HEADER_BYTES {
      var window := if |all| <= MAX_RESPONSE_HEADER_BYTES then |all| else MAX_RESPONSE_HEADER_BYTES;
      assert all[..window] == input + all[|input|..window];
      assert input[..|input|] == input;
      FindStable(input, all[|input|..window]);
    } else {
      assert all[..MAX_RESPONSE_HEADER_BYTES] == input[..MAX_RESPONSE_HEADER_BYTES];
    }
  }

  // ---- the exact verdict --------------------------------------------------------------------

  /** A blank line at position i: two ends of line in a row. */
  predicate BlankAt(s: bytes, i: nat) {
    i + 4 <= |s| && s[i] == 13 && s[i + 1] == 10 && s[i + 2] == 13 && s[i + 3] == 10
  }

  ghost predicate HasBlank(s: bytes) { exists i: nat :: BlankAt(s, i) }

  /** head is followed by a blank line, and contains none, not even one that the last bytes of head begin. */
  ghost predicate Block(head: bytes) {
    forall i: nat :: BlankAt(head + [13, 10, 13, 10], i) ==> i >= |head|
  }

  lemma BlankIsCrlfCrlf(s: bytes, i: nat)
    requires i + 4 <= |s|
    ensures BlankAt(s, i) <==> s[i..i + 4] == CRLF_CRLF
  {
    var t := s[i..i + 4];
    assert t == [s[i], s[i + 1], s[i + 2], s[i + 3]];
  }

  lemma FoundFirst(s: bytes, end: nat)
    requires BlankAt(s, end) && forall i: nat :: BlankAt(s, i) ==> i >= end
    ensures FindDoubleCrlf(s) == Some(end)
  {
    var r := FindDoubleCrlf(s);
    BlankIsCrlfCrlf(s, end);
    assert r.Some? && r.value <= end;
    BlankIsCrlfCrlf(s, r.value);
  }

  lemma FoundNone(s: bytes)
    ensures FindDoubleCrlf(s).None? <==> !HasBlank(s)
  {
    var r := FindDoubleCrlf(s);
    if r.Some? {
      BlankIsCrlfCrlf(s, r.value);
      assert BlankAt(s, r.value);
    } else {
      forall i: nat | BlankAt(s, i)
        ensures false
      {
        BlankIsCrlfCrlf(s, i);
      }
    }
  }

  /** The response is the header block, and it ends with the blank line within 16384 bytes. */
  lemma ResponseEnds(head: bytes, rest: bytes)
    requires Block(head) && |head| + 4 <= 16384
    ensures ParseResponse(head + [13, 10, 13, 10] + rest) == Response(|head|)
  {
    var block := head + [13, 10, 13, 10];
    assert BlankAt(block, |head|);
    FoundFirst(block, |head|);
    var input := block + rest;
    var window := if |input| <= 16384 then |input| else 16384;
    assert input[..window] == block + input[|block|..window];
    FindStable(block, input[|block|..window]);
  }

  /** Which of the three verdicts, from the bytes alone. */
  lemma ResponseVerdict(input: bytes)
    ensures ParseResponse(input).NeedMore? <==> |input| <= 16384 && !HasBlank(input)
    ensures ParseResponse(input).TooLarge? <==> |input| > 16384 && !HasBlank(input[..16384])
    ensures ParseResponse(input).Response? ==>
              var head := input[..ParseResponse(input).headerEnd];
              Block(head) && |head| + 4 <= 16384 && head + [13, 10, 13, 10] <= input
  {
    var window := if |input| <= 16384 then |input| else 16384;
    FoundNone(input[..window]);
    assert |input| <= 16384 ==> input[..window] == input;
    if ParseResponse(input).Response? {
      var end := ParseResponse(input).headerEnd;
      BlockFound(input[..window], end);
      assert input[..window][..end] == input[..end];
    }
  }

  lemma BlockFound(s: bytes, end: nat)
    requires FindDoubleCrlf(s) == Some(end)
    ensures Block(s[..end]) && s[..end] + [13, 10, 13, 10] <= s
  {
    var block := s[..end] + [13, 10, 13, 10];
    assert s[..end + 4] == s[..end] + s[end..end + 4] == block;
    forall i: nat | BlankAt(block, i)
      ensures i >= end
    {
      assert BlankAt(s, i);
      BlankIsCrlfCrlf(s, i);
    }
  }
}
