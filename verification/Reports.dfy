/**
 When a stream that is bound to fail is reported, src/ws/client.rs:607-720 and 2056-2108: two runs of the
 client over the same bytes, of which one reports the failure and the other waits for more.
 */
module Reports {
  import opened Bytes
  import opened Frame
  import opened Decoder
  import opened Outbound
  import opened Client
  import Http

  /** A header with a reserved bit set, without its extended length. */
  const BAD_START: bytes := [0xC1, 0x7E]

  lemma BareUpgrade(cfg: Config)
    requires cfg.upgradeOk([])
    ensures Http.ParseResponse(Http.CRLF_CRLF) == Http.Response(0)
    ensures cfg.upgradeOk(Http.CRLF_CRLF[..0]) && Http.CRLF_CRLF[4..] == []
  {
    assert Http.CRLF_CRLF[0..4] == Http.CRLF_CRLF;
    assert Http.CRLF_CRLF[..0] == [];
  }

  lemma BadStart(cfg: Config)
    ensures ServerHeader([]).Incomplete? && ServerHeader(BAD_START).Incomplete?
    ensures BorrowedVerdict(cfg, BAD_START).MustReject?
  {
  }

  /** Feeds the upgrade response and polls it; the client is open, between frames. */
  method Upgraded(cfg: Config, entropy: nat -> bytes, avx2: bool) returns (c: WsClient)
    requires cfg.upgradeOk([]) && forall n: nat :: |entropy(n)| == MASK_POOL_BYTES
    ensures fresh(c) && fresh(c.parser) && fresh(c.recvBuf) && fresh(c.tx)
    ensures c.Valid() && c.cfg == cfg && c.AtFrame([]) && c.fed == Http.CRLF_CRLF
  {
    hide WsClient.Valid, Run, Http.ParseResponse;
    BareUpgrade(cfg);
    c := new WsClient(cfg, 0, 0, entropy, avx2);
    assert [] + Http.CRLF_CRLF == Http.CRLF_CRLF;
    c.FeedRecv(Http.CRLF_CRLF);
    assert c.AtUpgrade();
    var _ := c.PollEvent();
  }

  /** The two bytes are polled at once: the borrowed path rejects them. */
  method PollAtOnce(cfg: Config, entropy: nat -> bytes, avx2: bool) returns (r: PollResult, ghost c: WsClient)
    requires cfg.upgradeOk([]) && forall n: nat :: |entropy(n)| == MASK_POOL_BYTES
    ensures r.PollFailed? && c.Valid() && c.failed && c.fed == Http.CRLF_CRLF + BAD_START
  {
    hide WsClient.Valid, Run, Http.ParseResponse, ServerHeader, BorrowedVerdict;
    BadStart(cfg);
    var client := Upgraded(cfg, entropy, avx2);
    assert [] + BAD_START == BAD_START;
    client.FeedRecv(BAD_START);
    assert client.AtBadFrame();
    r := client.PollEvent();
    c := client;
  }

  /**
   The empty buffer is polled first, which leaves the streaming parser in the middle of a header; then the
   two bytes are not enough for it.
   */
  method PollBefore(cfg: Config, entropy: nat -> bytes, avx2: bool) returns (r: PollResult, ghost c: WsClient)
    requires cfg.upgradeOk([]) && forall n: nat :: |entropy(n)| == MASK_POOL_BYTES
    ensures r.Nothing? && c.Valid() && !c.failed && c.fed == Http.CRLF_CRLF + BAD_START
  {
    hide WsClient.Valid, Run, Http.ParseResponse, ServerHeader, BorrowedVerdict;
    BadStart(cfg);
    var client := Upgraded(cfg, entropy, avx2);
    assert client.AwaitsHeader([]);
    var _ := client.PollEvent();
    assert client.HoldsHeader([]);
    client.FeedRecv(BAD_START);
    assert client.AwaitsHeader(BAD_START);
    r := client.PollEvent();
    c := client;
  }

  /** Two runs of the client over the same bytes: one has failed, the other waits. */
  method ReportsDiffer(cfg: Config, entropy: nat -> bytes, avx2: bool)
    returns (early: PollResult, late: PollResult, ghost a: WsClient, ghost b: WsClient)
    requires cfg.upgradeOk([]) && forall n: nat :: |entropy(n)| == MASK_POOL_BYTES
    ensures early.PollFailed? && late.Nothing?
    ensures a.Valid() && b.Valid() && a.fed == b.fed && a.failed && !b.failed
  {
    hide WsClient.Valid;
    early, a := PollAtOnce(cfg, entropy, avx2);
    late, b := PollBefore(cfg, entropy, avx2);
  }
}
