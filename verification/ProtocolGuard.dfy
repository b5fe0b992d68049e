/** The streaming protocol guard (agent/main.go): samples of both directions, one report a connection. */
module ProtocolGuard {
  import opened Bytes
  import opened Detectors
  import opened Options

  const SERVER_SAMPLE_MAX: nat := 16

  datatype Protocol = HTTP | TLS | SOCKS
  datatype Policy = Policy(blockHTTP: bool, blockTLS: bool, blockSocks: bool) {
    predicate Enabled() {
      blockHTTP || blockTLS || blockSocks
    }
  }

  /** A sample takes from the chunk only what it still has room for. */
  function Grow(sample: Data, max: nat, chunk: Data): Data {
    if |sample| >= max then sample
    else if |chunk| < max - |sample| then sample + chunk
    else sample + chunk[..max - |sample|]
  }

  // ------------------------------------------------------------- one-shot meaning

  function Cap(d: Data): Data {
    if |d| <= SAMPLE_MAX then d else d[..SAMPLE_MAX]
  }

  /** What the detectors say of everything a client has sent. */
  function ClientVerdict(p: Policy, client: Data): Option<Protocol> {
    if p.blockHTTP && DetectHTTP(Cap(client)) then Some(HTTP)
    else if p.blockTLS && DetectTLS(Cap(client)) then Some(TLS)
    else None
  }

  function Need(g: Greeting): nat {
    if g.version == 0x05 then 2 else 8
  }

  /** The first bytes of the target's reply accept or refuse the greeting. */
  predicate Confirms(g: Greeting, reply: Data) {
    && |reply| >= Need(g)
    && if g.version == 0x05 then reply[0] == 0x05 && (reply[1] == 0xff || reply[1] in g.methods)
       else (reply[0] == 0x00 || reply[0] == 0x04) && 0x5a <= reply[1] <= 0x5d
  }

  /** Version 5: two bytes, with one of the offered methods or none; version 4: eight bytes, with one of its four codes. */
  lemma ConfirmsMeaning(g: Greeting, reply: Data)
    ensures g.version == 5 ==>
              (Confirms(g, reply) <==> exists m: Byte :: (m in g.methods || m == 0xff) && |reply| >= 2 && reply[..2] == [5, m])
    ensures g.version != 5 ==>
              (Confirms(g, reply) <==> && |reply| >= 8 && (reply[0] == 0 || reply[0] == 4)
                                       && (reply[1] == 90 || reply[1] == 91 || reply[1] == 92 || reply[1] == 93))
  {
    if |reply| >= 2 {
      assert reply[..2] == [reply[0], reply[1]];
      assert forall m: Byte :: [reply[0], reply[1]] == [5, m] <==> reply[0] == 5 && reply[1] == m;
    }
  }

  function Greets(p: Policy, client: Data): Option<Greeting> {
    if p.blockSocks then Socks(Cap(client)) else None
  }

  function ServerVerdict(p: Policy, client: Data, reply: Data): Option<Protocol> {
    var g := Greets(p, client);
    if g.Some? && Confirms(g.value, reply) then Some(SOCKS) else None
  }

  function Verdict(p: Policy, client: Data, reply: Data): Option<Protocol> {
    var v := ClientVerdict(p, client);
    if v.Some? then v else ServerVerdict(p, client, reply)
  }

  // ---------------------------------------------------------------- the inspection

  class Inspection {
    const policy: Policy
    var clientSample: Data
    var serverSample: Data
    var socksVersion: Byte
    var socks5Methods: set<Byte>
    var socksCandidate: bool
    var clientInspectionDone: bool
    var blocked: bool
    /** Everything the client sent, and what the target answered since the client's last chunk. */
    ghost var client: Data
    ghost var reply: Data

    ghost predicate Valid()
      reads this
    {
      if blocked then !socksCandidate
      else
        var g := Greets(policy, client);
        && Verdict(policy, client, reply).None?
        && (policy.Enabled() ==> clientSample == Cap(client))
        && (clientInspectionDone ==> |client| >= SAMPLE_MAX && g.None?)
        && socksCandidate == (g.Some? && |reply| < Need(g.value))
        && (socksCandidate ==>
              socksVersion == g.value.version && socks5Methods == g.value.methods && serverSample == reply)
    }

    constructor (p: Policy)
      ensures Valid() && policy == p && client == reply == [] && !blocked
    {
      policy := p;
      clientSample, serverSample, client, reply := [], [], [], [];
      socksVersion, socks5Methods := 0, {};
      socksCandidate, clientInspectionDone, blocked := false, false, false;
    }

    method InspectClient(chunk: Data) returns (report: Option<Protocol>)
      requires Valid()
      modifies this
      ensures Valid()
      ensures client == old(client) + chunk && reply == if chunk == [] then old(reply) else []
      ensures report == if old(blocked) then None else Verdict(policy, client, reply)
      ensures blocked == (old(blocked) || report.Some?)
    {
      if chunk == [] {
        return None;
      }
      CapGrows(client, chunk);
      client, reply := client + chunk, [];
      if !policy.Enabled() || blocked || clientInspectionDone {
        return None;
      }
      var sample := Grow(clientSample, SAMPLE_MAX, chunk);
      clientSample := sample;
      if policy.blockHTTP && DetectHTTP(sample) {
        report := Some(HTTP);
      } else if policy.blockTLS && DetectTLS(sample) {
        report := Some(TLS);
      } else {
        report := None;
      }
      assert report == ClientVerdict(policy, client);
      if report.Some? {
        blocked, clientInspectionDone, socksCandidate := true, true, false;
        return;
      }
      ExpectReply(sample);
    }

    /** A sample without HTTP or TLS may be a SOCKS greeting, to be confirmed by the reply. */
    method ExpectReply(sample: Data)
      requires !blocked && policy.Enabled() && ClientVerdict(policy, client).None?
      requires clientSample == sample == Cap(client) && reply == [] && !clientInspectionDone
      requires !policy.blockSocks ==> !socksCandidate
      modifies this`socksVersion, this`socks5Methods, this`serverSample, this`socksCandidate, this`clientInspectionDone
      ensures Valid()
    {
      if !policy.blockSocks {
        clientInspectionDone := |sample| >= SAMPLE_MAX;
        return;
      }
      var greeting := Socks(sample);
      if greeting.None? {
        socksVersion, socks5Methods, serverSample, socksCandidate, clientInspectionDone :=
          0, {}, [], false, |sample| >= SAMPLE_MAX;
        return;
      }
      socksVersion, socks5Methods, serverSample, socksCandidate :=
        greeting.value.version, greeting.value.methods, [], true;
    }

    method InspectServer(chunk: Data) returns (report: Option<Protocol>)
      requires Valid()
      modifies this
      ensures Valid()
      ensures client == old(client) && reply == old(reply) + chunk
      ensures report == if old(blocked) then None else Verdict(policy, client, reply)
      ensures blocked == (old(blocked) || report.Some?)
    {
      reply := reply + chunk;
      if chunk == [] || !socksCandidate || blocked || socksVersion == 0 {
        if !blocked && Greets(policy, client).Some? {
          ConfirmsEarly(Greets(policy, client).value, old(reply), chunk);
        }
        return None;
      }
      var g: Greeting := Greeting(socksVersion, socks5Methods);
      SampleDecides(g, serverSample, chunk);
      assert Greets(policy, client) == Some(g);
      serverSample := Grow(serverSample, SERVER_SAMPLE_MAX, chunk);
      if socksVersion == 0x05 {
        if |serverSample| < 2 {
          return None;
        }
        var method_ := serverSample[1];
        if serverSample[0] == 0x05 && (method_ == 0xff || method_ in socks5Methods) {
          blocked, clientInspectionDone, socksCandidate := true, true, false;
          return Some(SOCKS);
        }
      } else {
        if |serverSample| < 8 {
          return None;
        }
        var status := serverSample[1];
        if (serverSample[0] == 0x00 || serverSample[0] == 0x04) && 0x5a <= status <= 0x5d {
          blocked, clientInspectionDone, socksCandidate := true, true, false;
          return Some(SOCKS);
        }
      }
      socksVersion, socks5Methods, serverSample, socksCandidate := 0, {}, [], false;
      return None;
    }
  }

  lemma CapGrows(d: Data, more: Data)
    ensures Cap(d + more) == Grow(Cap(d), SAMPLE_MAX, more)
    ensures |d| >= SAMPLE_MAX ==> Cap(d + more) == Cap(d)
  {
  }

  /** Once enough of the reply is there, more of it changes nothing. */
  lemma ConfirmsEarly(g: Greeting, reply: Data, more: Data)
    requires |reply| >= Need(g) || more == []
    ensures Confirms(g, reply + more) == Confirms(g, reply)
  {
    assert more == [] ==> reply + more == reply;
  }

  /** The bounded sample decides as the whole reply does. */
  lemma SampleDecides(g: Greeting, reply: Data, chunk: Data)
    requires |reply| < Need(g)
    ensures |Grow(reply, SERVER_SAMPLE_MAX, chunk)| < Need(g) ==> Grow(reply, SERVER_SAMPLE_MAX, chunk) == reply + chunk
    ensures Confirms(g, Grow(reply, SERVER_SAMPLE_MAX, chunk)) == Confirms(g, reply + chunk)
    ensures |Grow(reply, SERVER_SAMPLE_MAX, chunk)| >= Need(g) ==> |reply + chunk| >= Need(g)
  {
  }

  // ----------------------------------------------------------------- whole streams

  datatype Event = FromClient(chunk: Data) | FromTarget(chunk: Data)

  function Init(es: seq<Event>): seq<Event>
    requires es != []
  {
    es[..|es| - 1]
  }

  function ClientBytes(es: seq<Event>): Data {
    if es == [] then []
    else match es[|es| - 1] {
      case FromClient(chunk) => ClientBytes(Init(es)) + chunk
      case FromTarget(_) => ClientBytes(Init(es))
    }
  }

  /** What the target sent since the client's last non-empty chunk. */
  function ReplyBytes(es: seq<Event>): Data {
    if es == [] then []
    else match es[|es| - 1] {
      case FromClient(chunk) => if chunk == [] then ReplyBytes(Init(es)) else []
      case FromTarget(chunk) => ReplyBytes(Init(es)) + chunk
    }
  }

  /** The verdict at the first moment there is one. */
  function Report(p: Policy, es: seq<Event>): Option<Protocol> {
    if es == [] then None
    else
      var before := Report(p, Init(es));
      if before.Some? then before else Verdict(p, ClientBytes(es), ReplyBytes(es))
  }

  /** Both copy loops of one connection, in any interleaving of their chunks. */
  method Guard(p: Policy, es: seq<Event>) returns (reports: seq<Protocol>)
    ensures reports == match Report(p, es) { case None => [] case Some(protocol) => [protocol] }
  {
    var inspection := new Inspection(p);
    reports := [];
    for i := 0 to |es|
      invariant inspection.Valid() && inspection.policy == p && fresh(inspection)
      invariant inspection.client == ClientBytes(es[..i]) && inspection.reply == ReplyBytes(es[..i])
      invariant inspection.blocked == Report(p, es[..i]).Some?
      invariant reports == match Report(p, es[..i]) { case None => [] case Some(protocol) => [protocol] }
    {
      assert Init(es[..i + 1]) == es[..i];
      var report;
      match es[i] {
        case FromClient(chunk) => report := inspection.InspectClient(chunk);
        case FromTarget(chunk) => report := inspection.InspectServer(chunk);
      }
      if report.Some? {
        reports := reports + [report.value];
      }
    }
    assert es[..|es|] == es;
  }

  lemma VerdictStays(p: Policy, client: Data, more: Data)
    requires ClientVerdict(p, client).Some?
    ensures ClientVerdict(p, client + more) == ClientVerdict(p, client)
  {
    CapGrows(client, more);
    if |client| < SAMPLE_MAX {
      var n := if |more| < SAMPLE_MAX - |client| then |more| else SAMPLE_MAX - |client|;
      assert Cap(client + more) == client + more[..n];
      HTTPIsNotTLS(client + more[..n]);
      if DetectHTTP(client) {
        HTTPIsMonotone(client, more[..n]);
      }
      if DetectTLS(client) {
        TLSIsMonotone(client, more[..n]);
      }
    }
  }

  /** The client began with a SOCKS version number. */
  predicate SocksStart(client: Data) {
    client != [] && (client[0] == 0x04 || client[0] == 0x05)
  }

  /** Such a stream is neither HTTP, whose methods are letters, nor TLS. */
  lemma SocksStartIsNeither(p: Policy, client: Data)
    requires SocksStart(client)
    ensures ClientVerdict(p, client).None?
  {
    var sample := Cap(client);
    var end := FirstLineEnd(sample);
    var line := if end >= 0 then sample[..end] else sample;
    var m := Split(line)[0];
    assert sample[0] == client[0];
    if m != [] {
      SplitStart(line);
    }
  }

  lemma {:induction false} SocksReportStart(p: Policy, es: seq<Event>)
    requires Report(p, es) == Some(SOCKS)
    ensures SocksStart(ClientBytes(es))
  {
    if Report(p, Init(es)) == Some(SOCKS) {
      SocksReportStart(p, Init(es));
    } else {
      assert Socks(Cap(ClientBytes(es))).Some?;
    }
  }

  /**
   However the two directions interleave, what is reported is what the detectors say of the
   first bytes of the whole client stream; or it is SOCKS, and then they say nothing.
   */
  lemma {:induction false} StreamingIsOneShot(p: Policy, es: seq<Event>)
    ensures Report(p, es) != Some(SOCKS) ==> Report(p, es) == ClientVerdict(p, ClientBytes(es))
    ensures Report(p, es) == Some(SOCKS) ==> ClientVerdict(p, ClientBytes(es)).None?
  {
    if Report(p, es) == Some(SOCKS) {
      SocksReportStart(p, es);
      SocksStartIsNeither(p, ClientBytes(es));
    } else if es != [] {
      var before := Report(p, Init(es));
      StreamingIsOneShot(p, Init(es));
      if before.Some? {
        match es[|es| - 1] {
          case FromClient(chunk) => VerdictStays(p, ClientBytes(Init(es)), chunk);
          case FromTarget(_) =>
        }
      }
    }
  }

  /** HTTP is reported exactly when it is blocked and seen, and so is TLS: neither hides the other, nor does SOCKS. */
  lemma {:induction false} EachProtocolIsExact(p: Policy, es: seq<Event>)
    ensures Report(p, es) == Some(HTTP) <==> p.blockHTTP && DetectHTTP(Cap(ClientBytes(es)))
    ensures Report(p, es) == Some(TLS) <==> p.blockTLS && DetectTLS(Cap(ClientBytes(es)))
  {
    StreamingIsOneShot(p, es);
    HTTPIsNotTLS(Cap(ClientBytes(es)));
  }

  /** After k events the target's reply confirms what the client greeted with. */
  predicate Confirmed(p: Policy, es: seq<Event>, k: nat) {
    k <= |es| && ServerVerdict(p, ClientBytes(es[..k]), ReplyBytes(es[..k])).Some?
  }

  lemma {:induction false} GreetingStarts(p: Policy, es: seq<Event>)
    requires Greets(p, ClientBytes(es)).Some?
    ensures SocksStart(ClientBytes(es))
  {
    assert Cap(ClientBytes(es))[0] == ClientBytes(es)[0];
  }

  /** SOCKS is reported exactly if at some moment the reply confirms the greeting. */
  lemma {:induction false} SocksIsExact(p: Policy, es: seq<Event>)
    ensures Report(p, es) == Some(SOCKS) <==> exists k: nat :: Confirmed(p, es, k)
  {
    assert es[..|es|] == es;
    if es != [] {
      var init := Init(es);
      SocksIsExact(p, init);
      assert forall k: nat :: k <= |init| ==> init[..k] == es[..k];
      StreamingIsOneShot(p, es);
      if Confirmed(p, es, |es|) {
        GreetingStarts(p, es);
        SocksStartIsNeither(p, ClientBytes(es));
      }
      if k: nat :| Confirmed(p, init, k) {
        assert Confirmed(p, es, k);
      }
      if k: nat :| Confirmed(p, es, k) {
        assert k < |es| ==> Confirmed(p, init, k);
      }
    }
  }

  function Sent(chunks: seq<Data>): seq<Event> {
    seq(|chunks|, i requires 0 <= i < |chunks| => FromClient(chunks[i]))
  }

  function Answered(chunks: seq<Data>): seq<Event> {
    seq(|chunks|, i requires 0 <= i < |chunks| => FromTarget(chunks[i]))
  }

  function Flat(chunks: seq<Data>): Data {
    if chunks == [] then [] else Flat(chunks[..|chunks| - 1]) + chunks[|chunks| - 1]
  }

  lemma {:induction false} SentBytes(p: Policy, chunks: seq<Data>)
    ensures ClientBytes(Sent(chunks)) == Flat(chunks) && ReplyBytes(Sent(chunks)) == []
    ensures Report(p, Sent(chunks)) == ClientVerdict(p, Flat(chunks))
  {
    var es := Sent(chunks);
    if chunks != [] {
      var first := chunks[..|chunks| - 1];
      assert Init(es) == Sent(first);
      SentBytes(p, first);
      assert Report(p, es) != Some(SOCKS);
    }
    StreamingIsOneShot(p, es);
  }

  /**
   * A client stream followed by the target's reply: what is reported depends on the bytes
   * alone, not on how either side was split into chunks.
   */
  lemma {:induction false} HandshakeThenReply(p: Policy, sent: seq<Data>, answer: seq<Data>)
    ensures ClientBytes(Sent(sent) + Answered(answer)) == Flat(sent)
    ensures ReplyBytes(Sent(sent) + Answered(answer)) == Flat(answer)
    ensures Report(p, Sent(sent) + Answered(answer)) == Verdict(p, Flat(sent), Flat(answer))
    decreases |answer|
  {
    var es := Sent(sent) + Answered(answer);
    if answer == [] {
      assert es == Sent(sent);
      SentBytes(p, sent);
    } else {
      var first := answer[..|answer| - 1];
      var chunk := answer[|answer| - 1];
      assert Init(es) == Sent(sent) + Answered(first);
      HandshakeThenReply(p, sent, first);
      var g := Greets(p, Flat(sent));
      if g.Some? && Confirms(g.value, Flat(first)) {
        ConfirmsEarly(g.value, Flat(first), chunk);
      }
    }
  }
}
