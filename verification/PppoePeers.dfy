/** The two programs of a discovery exchange as objects: the server with its session pool and its
    remembered tags, the client with its connection record. */
module PppoePeers {
  import opened Bytes
  import opened Chunks
  import opened SessionLists
  import opened SessionLedger
  import opened SessionPool
  import opened Options
  import opened PppoeTags
  import opened PppoeDiscovery
  import opened PppoeRules
  import Md5Spec
  import PlumbMd5

  // ----- shared code

  /** CHECK_ROOM and memcpy for one tag after another: all of them or nothing. */
  method WriteTags(tags: seq<Tag>) returns (body: Option<seq<byte>>)
    requires AllEncodable(tags)
    ensures body == if |Encode(tags)| <= MAX_PAYLOAD then Some(Encode(tags)) else None
  {
    hide EncodeTag;
    var w := new Writer();
    for i := 0 to |tags|
      invariant w.Valid() && fresh(w) && fresh(w.payload) && w.cursor <= MAX_PAYLOAD
      invariant w.payload[..w.cursor] == Encode(tags[..i])
    {
      assert tags == tags[..i + 1] + tags[i + 1..] && tags[..i + 1] == tags[..i] + [tags[i]];
      EncodeConcat(tags[..i], [tags[i]]);
      EncodeConcat(tags[..i + 1], tags[i + 1..]);
      EncodeOne(tags[i]);
      assert [tags[i]][1..] == [];
      if !w.HasRoom(TAG_HDR + |tags[i].data|) {
        return None;
      }
      w.Append(tags[i]);
    }
    assert tags[..|tags|] == tags;
    body := Some(w.payload[..w.cursor]);
  }

  method SendTags(dest: Mac, source: Mac, code: nat, session: nat, tags: seq<Tag>) returns (f: Option<Frame>)
    requires AllEncodable(tags)
    ensures f == Send(dest, source, code, session, tags)
  {
    var body := WriteTags(tags);
    f := match body case None => None case Some(b) => Some(Frame(dest, source, code, session, b));
  }

  lemma {:induction false} TagsAtPrefix(p: Payload, slices: seq<Slice>, i: nat)
    requires Inside(slices) && i < |slices|
    ensures TagsAt(p, slices[..i + 1]) == TagsAt(p, slices[..i]) + [SliceTag(p, slices[i])]
    decreases i
  {
    hide SliceTag;
    if i == 0 {
      assert slices[..1] == [slices[0]] && slices[..1][1..] == [] && slices[..0] == [];
    } else {
      assert slices[..i + 1][1..] == slices[1..][..i] && slices[..i][1..] == slices[1..][..i - 1];
      TagsAtPrefix(p, slices[1..], i - 1);
    }
  }

  /** The callbacks' copying, for one kind of tag. */
  method Remember(p: Packet, kind: nat) returns (data: Option<seq<byte>>)
    ensures data == LastData(Heard(p), kind)
  {
    hide Parse, SliceTag, TagsAt, InOrder, TotalSize, LastData;
    var slices, ok := ParsePacket(p);
    ParseIsSafe(p);
    data := None;
    NoData(kind);
    NoSlices(p.payload);
    assert slices[..0] == [];
    for i := 0 to |slices|
      invariant data == LastData(TagsAt(p.payload, slices[..i]), kind)
    {
      TagsAtPrefix(p.payload, slices, i);
      var s := slices[i];
      LastDataConcat(TagsAt(p.payload, slices[..i]), [SliceTag(p.payload, s)], kind);
      LastDataOne(SliceTag(p.payload, s), kind);
      SliceTagIs(p.payload, s);
      if s.kind == kind {
        data := Some(p.payload[s.at..s.at + s.len]);
      }
    }
    assert slices[..|slices|] == slices;
  }

  /** The tags one by one, for the callbacks that look at every tag. */
  method HearAll(p: Packet) returns (tags: seq<Tag>)
    ensures tags == Heard(p)
  {
    hide Parse, SliceTag, TagsAt, InOrder, TotalSize;
    var slices, ok := ParsePacket(p);
    ParseIsSafe(p);
    tags := [];
    NoSlices(p.payload);
    assert slices[..0] == [];
    for i := 0 to |slices|
      invariant tags == TagsAt(p.payload, slices[..i])
    {
      TagsAtPrefix(p.payload, slices, i);
      tags := tags + [SliceTag(p.payload, slices[i])];
    }
    assert slices[..|slices|] == slices;
  }

  lemma {:induction false} SliceTagIs(p: Payload, s: Slice)
    requires s.at + s.len <= PAYLOAD_SIZE
    ensures SliceTag(p, s) == Tag(s.kind, p[s.at..s.at + s.len])
  {}

  lemma {:induction false} NoData(kind: nat)
    ensures LastData([], kind) == None
  {}

  lemma {:induction false} NoSlices(p: Payload)
    ensures TagsAt(p, []) == []
  {}

  lemma {:induction false} HeardSmall(p: Payload, slices: seq<Slice>)
    requires Inside(slices)
    ensures forall i :: 0 <= i < |TagsAt(p, slices)| ==> |TagsAt(p, slices)[i].data| <= PAYLOAD_SIZE
    decreases |slices|
  {
    if slices != [] {
      HeardSmall(p, slices[1..]);
      var t := TagsAt(p, slices);
      assert forall i :: 0 < i < |t| ==> t[i] == TagsAt(p, slices[1..])[i - 1];
    }
  }

  lemma {:induction false} LastDataSmall(tags: seq<Tag>, kind: nat)
    requires forall i :: 0 <= i < |tags| ==> |tags[i].data| <= PAYLOAD_SIZE
    ensures LastData(tags, kind).Some? ==> |LastData(tags, kind).value| <= PAYLOAD_SIZE
    decreases |tags|
  {
    if tags != [] && tags[|tags| - 1].kind != kind { LastDataSmall(tags[..|tags| - 1], kind); }
  }

  lemma {:induction false} RememberedSmall(p: Packet, kind: nat)
    ensures LastData(Heard(p), kind).Some? ==> |LastData(Heard(p), kind).value| <= PAYLOAD_SIZE
  {
    ParseIsSafe(p);
    HeardSmall(p.payload, Parse(p).slices);
    LastDataSmall(Heard(p), kind);
  }

  lemma {:induction false} JoinThree(a: seq<bv8>, b: seq<bv8>, c: seq<bv8>)
    ensures Flatten([a, b, c]) == a + b + c
  {
    assert [a, b, c][..2] == [a, b] && [a, b][..1] == [a] && [a][..0] == [];
    assert Flatten([a]) == [] + a == a;
    assert Flatten([a, b]) == a + b;
  }

  // ----- server

  /** Overflow: the session has started, but the PADS is written past the end of its payload. */
  datatype Answer = Silent | Failure(tag: nat) | Confirm(slot: nat, pads: Frame) | Overflow(slot: nat)

  /** What becomes of a PADR: dropped unless authentic, an error for a service not served, an error
      without a slot or a child, and otherwise a session. */
  ghost predicate PadrOutcome(a: Answer, authentic: bool, served: bool, slotFree: bool, child: int) {
    && (a.Silent? <==> !authentic)
    && (a == Failure(0x0201) <==> authentic && !served)
    && (a == Failure(0x0202) <==> authentic && served && !(slotFree && child > 0))
    && (a.Confirm? || a.Overflow? <==> authentic && served && slotFree && child > 0)
  }

  /** A PADS for session `id`. */
  ghost predicate PadsSays(cfg: Config, p: Packet, id: nat, f: Frame) {
    exists tags :: PadsWith(cfg, p, id, f, tags)
  }

  ghost predicate PadsWith(cfg: Config, p: Packet, id: nat, f: Frame, tags: seq<Tag>) {
    && ConfirmationTags(cfg, Heard(p), tags)
    && AllEncodable(tags) && f == Frame(p.source, cfg.mac, 0x65, id, Encode(tags))
  }

  lemma {:induction false} PadsSpeaks(cfg: Config, p: Packet, service: seq<byte>, id: nat)
    requires AsksFor(cfg, p, service) && AllEncodable(PadsTags(cfg, service, Heard(p)))
    ensures PadsSays(cfg, p, id, Frame(p.source, cfg.mac, PADS, id, Encode(PadsTags(cfg, service, Heard(p)))))
  {
    hide Heard, PadsTags, Encode, ConfirmationTags, Latest;
    var tags := PadsTags(cfg, service, Heard(p));
    ConfirmationCarries(cfg, Heard(p), service);
    assert PadsWith(cfg, p, id, Frame(p.source, cfg.mac, PADS, id, Encode(tags)), tags);
  }

  class Server {
    const cfg: Config
    const pool: Pool
    var relayId: Option<seq<byte>>
    var hostUniq: Option<seq<byte>>
    var receivedCookie: Option<seq<byte>>
    var requestedService: Option<seq<byte>>

    ghost predicate Valid()
      reads pool, pool.slots
    {
      pool.Quiet() && |cfg.pid| == 4 && |cfg.seed| < 0x1_0000
    }

    constructor (cfg: Config, pool: Pool)
      requires pool.Quiet() && |cfg.pid| == 4 && |cfg.seed| < 0x1_0000
      ensures Valid() && this.cfg == cfg && this.pool == pool
    {
      this.cfg, this.pool := cfg, pool;
      relayId, hostUniq, receivedCookie, requestedService := None, None, None, None;
    }

    ghost predicate UnderLimit(mac: Mac)
      reads pool, pool.slots
      requires pool.Valid()
    {
      pool.maxPerMac > 0 ==> |Holding(pool.slots[..], pool.busy, mac)| < pool.maxPerMac
    }

    method CheckLimit(mac: Mac) returns (ok: bool)
      requires Valid()
      ensures ok == UnderLimit(mac)
    {
      hide Holding;
      if pool.maxPerMac == 0 { return true; }
      var n := pool.CountSessions(mac);
      ok := n < pool.maxPerMac;
    }

    /** genCookie, with the three updates of the MD5 context. */
    method GenCookie(peer: Mac) returns (c: seq<byte>)
      requires Valid()
      ensures c == Cookie(cfg, peer)
    {
      hide Md5Spec.Digest;
      var a, b, d := ToBits(peer), ToBits(cfg.mac), ToBits(cfg.seed);
      JoinThree(a, b, d);
      var digest := PlumbMd5.DigestOf([a, b, d]);
      c := FromBits(digest) + cfg.pid;
    }

    /** The search through ServiceNames. */
    method Supports(name: seq<byte>) returns (ok: bool)
      ensures ok == (name in cfg.services)
    {
      ok := false;
      for i := 0 to |cfg.services|
        invariant !ok && name !in cfg.services[..i]
      {
        if name == cfg.services[i] { return true; }
      }
      assert cfg.services[..|cfg.services|] == cfg.services;
    }

    /** parsePADITags and parsePADRTags: the last tag of each kind is kept.  The former leaves the
        cookie alone, which no PADI handling reads. */
    method Collect(p: Packet)
      modifies this`relayId, this`hostUniq, this`requestedService, this`receivedCookie
      ensures relayId == LastData(Heard(p), RELAY_SESSION_ID) && hostUniq == LastData(Heard(p), HOST_UNIQ)
      ensures receivedCookie == LastData(Heard(p), AC_COOKIE) && requestedService == LastData(Heard(p), SERVICE_NAME)
    {
      hide LastData, Heard;
      relayId := Remember(p, RELAY_SESSION_ID);
      hostUniq := Remember(p, HOST_UNIQ);
      receivedCookie := Remember(p, AC_COOKIE);
      requestedService := Remember(p, SERVICE_NAME);
    }

    /** processPADI */
    method ProcessPadi(p: Packet) returns (pado: Option<Frame>)
      requires Valid()
      modifies this`relayId, this`hostUniq, this`requestedService, this`receivedCookie
      ensures Valid() && pado == AnswerPadi(cfg, UnderLimit(p.source), p)
      ensures PadoRule(cfg, UnderLimit(p.source), p, pado)
    {
      hide AnswerPadi, PadoRule, UnderLimit, Linked, Partition, Named, AllGood, Limited, Holding, Below;
      AnswerPadiObeys(cfg, UnderLimit(p.source), p);
      pado := OfferTo(p);
    }

    method OfferTo(p: Packet) returns (pado: Option<Frame>)
      requires Valid()
      modifies this`relayId, this`hostUniq, this`requestedService, this`receivedCookie
      ensures Valid() && pado == AnswerPadi(cfg, UnderLimit(p.source), p)
    {
      hide Cookie, LastData, Heard, Encode, UnderLimit, Linked, Partition, Named, AllGood, Limited, Holding, Below;
      pado := None;
      if NotUnicast(p.source) { return; }
      var ok := CheckLimit(p.source);
      if !ok { return; }
      Collect(p);
      if requestedService.Some? && |requestedService.value| != 0 {
        ok := Supports(requestedService.value);
        if !ok { return; }
      }
      var cookie := GenCookie(p.source);
      RememberedSmall(p, RELAY_SESSION_ID);
      RememberedSmall(p, HOST_UNIQ);
      ServiceTagsSize(Offered(cfg));
      var tags := [Tag(AC_NAME, cfg.acName)] + ServiceTags(Offered(cfg)) + [Tag(AC_COOKIE, cookie)]
                  + OptionalTag(RELAY_SESSION_ID, relayId) + OptionalTag(HOST_UNIQ, hostUniq);
      pado := SendTags(p.source, cfg.mac, PADO, 0, tags);
    }

    /** The checks of processPADR. */
    method Judge(p: Packet) returns (v: Verdict)
      requires Valid()
      modifies this`relayId, this`hostUniq, this`requestedService, this`receivedCookie
      ensures Valid() && v == JudgePadr(cfg, UnderLimit(p.source), p)
      ensures !v.Drop? ==> relayId == LastData(Heard(p), RELAY_SESSION_ID) && hostUniq == LastData(Heard(p), HOST_UNIQ)
      ensures v.Drop? <==> !Authentic(cfg, UnderLimit(p.source), p)
      ensures v.Error? <==> Authentic(cfg, UnderLimit(p.source), p) && !Served(cfg, p)
      ensures v.Error? ==> v.tag == SERVICE_NAME_ERROR
      ensures v.Accept? ==> AsksFor(cfg, p, v.service)
    {
      hide JudgePadr, Authentic, Served, AsksFor, Heard, LastData, UnderLimit, Linked, Partition, Named, AllGood,
          Limited, Holding, Below;
      JudgedBy(cfg, UnderLimit(p.source), p);
      v := Check(p);
    }

    method Check(p: Packet) returns (v: Verdict)
      requires Valid()
      modifies this`relayId, this`hostUniq, this`requestedService, this`receivedCookie
      ensures Valid() && v == JudgePadr(cfg, UnderLimit(p.source), p)
      ensures !v.Drop? ==> relayId == LastData(Heard(p), RELAY_SESSION_ID) && hostUniq == LastData(Heard(p), HOST_UNIQ)
    {
      hide Cookie, LastData, Heard, Encode, UnderLimit, Linked, Partition, Named, AllGood, Limited, Holding, Below;
      if p.dest != cfg.mac { return Drop; }
      if NotUnicast(p.source) { return Drop; }
      var ok := CheckLimit(p.source);
      if !ok { return Drop; }
      Collect(p);
      if receivedCookie.None? { return Drop; }
      if |receivedCookie.value| != COOKIE_LEN { return Drop; }
      var cookie := GenCookie(p.source);
      if receivedCookie.value != cookie { return Drop; }
      if requestedService.None? { return Error(SERVICE_NAME_ERROR); }
      if |requestedService.value| != 0 {
        ok := Supports(requestedService.value);
        if !ok { return Error(SERVICE_NAME_ERROR); }
      }
      v := Accept(requestedService.value);
    }

    /** The PADS as the child builds it, without room checks: the caller must know that it fits. */
    method BuildPads(service: seq<byte>) returns (body: seq<byte>)
      requires relayId.Some? ==> |relayId.value| <= PAYLOAD_SIZE
      requires hostUniq.Some? ==> |hostUniq.value| <= PAYLOAD_SIZE
      requires |service| <= PAYLOAD_SIZE
      requires TAG_HDR + |EchoedService(cfg, service)| + DataSize(relayId) + DataSize(hostUniq) <= PAYLOAD_SIZE
      ensures var tags := [Tag(SERVICE_NAME, EchoedService(cfg, service))]
                          + OptionalTag(RELAY_SESSION_ID, relayId) + OptionalTag(HOST_UNIQ, hostUniq);
              AllEncodable(tags) && body == Encode(tags)
    {
      hide Encode, EncodeTag, EchoedService;
      var w := new Writer();
      EncodeNothing();
      var sv := Tag(SERVICE_NAME, EchoedService(cfg, service));
      ghost var done := Add(w, [], sv);
      if relayId.Some? { done := Add(w, done, Tag(RELAY_SESSION_ID, relayId.value)); }
      if hostUniq.Some? { done := Add(w, done, Tag(HOST_UNIQ, hostUniq.value)); }
      assert done == [sv] + OptionalTag(RELAY_SESSION_ID, relayId) + OptionalTag(HOST_UNIQ, hostUniq);
      body := w.payload[..w.cursor];
    }

    /** One more tag behind those already written. */
    method Add(w: Writer, ghost done: seq<Tag>, t: Tag) returns (ghost now: seq<Tag>)
      requires w.Valid() && AllEncodable(done) && w.payload[..w.cursor] == Encode(done)
      requires Encodable(t) && w.cursor + TAG_HDR + |t.data| <= PAYLOAD_SIZE
      modifies w, w.payload
      ensures w.Valid() && w.cursor == old(w.cursor) + TAG_HDR + |t.data|
      ensures now == done + [t] && AllEncodable(now) && w.payload[..w.cursor] == Encode(now)
    {
      hide Encode, EncodeTag;
      EncodeSingle(t);
      EncodeConcat(done, [t]);
      w.Append(t);
      now := done + [t];
    }

    /** processPADR: a session starts exactly when the PADR is accepted, a slot is free and fork
        succeeds; its PADS overflows only for an empty request with services configured. */
    method ProcessPadr(p: Packet, child: int) returns (a: Answer)
      requires Valid() && child != 0
      modifies this, pool, pool.slots
      ensures Valid()
      ensures PadrOutcome(a, old(Authentic(cfg, UnderLimit(p.source), p)), Served(cfg, p), old(pool.free) != [], child)
      ensures a.Confirm? || a.Overflow? <==>
                old(JudgePadr(cfg, UnderLimit(p.source), p)).Accept? && old(pool.free) != [] && child > 0
      ensures a.Confirm? || a.Overflow? ==>
                && a.slot == old(pool.free)[0] && a.slot < pool.n && a.slot in pool.busy
                && pool.slots[a.slot].eth == p.source
                && pool.slots[a.slot].sess == old(pool.slots[pool.free[0]].sess)
                && pool.View() == Take(old(pool.View()))
      ensures a.Confirm? ==>
                && PadsAnswer(cfg, old(JudgePadr(cfg, UnderLimit(p.source), p)), p, pool.slots[a.slot].sess, a.pads)
                && PadsSays(cfg, p, pool.slots[a.slot].sess, a.pads)
      ensures a.Confirm? || a.Overflow? ==>
                var v := old(JudgePadr(cfg, UnderLimit(p.source), p));
                var size := TagsSize(PadsTags(cfg, v.service, Heard(p)));
                && (a.Overflow? <==> size > PAYLOAD_SIZE)
                && (a.Confirm? ==> |a.pads.body| == size)
                && (size > MAX_PAYLOAD ==> v.service == [] && cfg.services != [])
      ensures Goes(old(pool.Ledger()), pool.Ledger())
    {
      hide Cookie, LastData, Heard, Encode, PadsTags, JudgePadr, Holding, TagsSize, Goes, Authentic, Served, AsksFor,
          PadsSays;
      JustLogged(pool.Ledger(), pool.Ledger());
      var v := Judge(p);
      if v.Drop? { return Silent; }
      if v.Error? { return Failure(v.tag); }
      AcceptMeans(cfg, UnderLimit(p.source), p);
      var r := pool.Request(p.source, true, child);
      match r {
        case Refused => return Silent;
        case NoSlot => return Failure(AC_SYSTEM_ERROR);
        case NoChild => return Failure(AC_SYSTEM_ERROR);
        case Started(slot) =>
          RememberedSmall(p, RELAY_SESSION_ID);
          RememberedSmall(p, HOST_UNIQ);
          RememberedSmall(p, SERVICE_NAME);
          PadsRoom(cfg, old(UnderLimit(p.source)), p);
          PadsSize(cfg, v.service, Heard(p));
          PadsTagsAre(cfg, v.service, Heard(p));
          if TAG_HDR + |EchoedService(cfg, v.service)| + DataSize(relayId) + DataSize(hostUniq) > PAYLOAD_SIZE {
            return Overflow(slot);
          }
          var body := BuildPads(v.service);
          EncodedSize(PadsTags(cfg, v.service, Heard(p)));
          PadsSpeaks(cfg, p, v.service, pool.slots[slot].sess);
          a := Confirm(slot, Frame(p.source, cfg.mac, PADS, pool.slots[slot].sess, body));
      }
    }
  }

  // ----- the server's whole life

  const HDR_SIZE := 20

  /** What reaches the server: a packet of `len` bytes, with what fork would return, or a child's exit. */
  datatype Arrival = Received(p: Packet, len: nat, child: int) | Exited(slot: nat)

  datatype Reply =
    | Nothing
    | OnPadi(pado: Option<Frame>)
    | OnPadr(answer: Answer)
    | OnPadt(termination: Termination)

  /** serverProcessPacket: goes on with a packet whose length field is covered and whose version and type
      are 1. */
  method Dispatch(server: Server, p: Packet, len: nat, child: int) returns (r: Reply)
    requires server.Valid() && child != 0 && p.session < 0x1_0000
    modifies server, server.pool, server.pool.slots
    ensures server.Valid() && Goes(old(server.pool.Ledger()), server.pool.Ledger())
    ensures r.OnPadi? <==> p.length + 20 <= len && p.ver == 1 && p.kind == 1 && p.code == 0x09
    ensures r.OnPadr? <==> p.length + 20 <= len && p.ver == 1 && p.kind == 1 && p.code == 0x19
    ensures r.OnPadt? <==> p.length + 20 <= len && p.ver == 1 && p.kind == 1 && p.code == 0xa7
    ensures r.OnPadi? ==> PadoRule(server.cfg, old(server.UnderLimit(p.source)), p, r.pado)
    ensures r.OnPadr? ==>
              PadrOutcome(r.answer, old(Authentic(server.cfg, server.UnderLimit(p.source), p)), Served(server.cfg, p),
                          old(server.pool.free) != [], child)
    ensures r.OnPadt? && !r.termination.Ignored? ==> p.dest == server.cfg.mac
    ensures r.Nothing? || r.OnPadi? ==> server.pool.Ledger() == old(server.pool.Ledger())
    ensures !r.OnPadr? ==> Logged(old(server.pool.Ledger()), server.pool.Ledger())
  {
    hide Goes, AnswerPadi, PadoRule, Authentic, Served, Linked, Partition, Named, AllGood, Limited, Below, Holding;
    JustLogged(server.pool.Ledger(), server.pool.Ledger());
    if p.length + HDR_SIZE > len { return Nothing; }
    if p.ver != 1 || p.kind != 1 { return Nothing; }
    if p.code == PADI {
      var pado := server.ProcessPadi(p);
      return OnPadi(pado);
    } else if p.code == PADR {
      var a := server.ProcessPadr(p, child);
      return OnPadr(a);
    } else if p.code == PADT {
      ghost var before := server.pool.Ledger();
      var t := server.pool.Terminate(p.dest == server.cfg.mac, p.session, p.source);
      JustLogged(before, server.pool.Ledger());
      return OnPadt(t);
    }
    return Nothing;
  }

  ghost predicate Proper(a: Arrival) { a.Received? ==> a.child != 0 && a.p.session < 0x1_0000 }

  /** What an arrival can do to the lists: an exit releases its slot, and only a PADR takes one. */
  ghost predicate Caused(a: Arrival, op: Op) {
    match a
    case Received(p, len, _) =>
      op == Stay || (!op.Release? && p.length + 20 <= len && p.ver == 1 && p.kind == 1 && p.code == 0x19)
    case Exited(slot) => op == Release(slot)
  }

  /** The server from its start through any packets and exits: the lists, links, names, limits and
      children are in order after it, and every session closed on the way has had a PADT of its own. */
  method RunNetwork(cfg: Config, n: nat, offset: nat, remote: Ip, maxPerMac: nat, randomize: bool,
                    rand: nat -> nat, arrivals: seq<Arrival>)
    returns (slots: seq<Slot>, active: nat, log: seq<Padt>, closed: seq<Padt>,
             ghost start: seq<nat>, ghost ops: seq<Op>)
    requires n > 0 && n + offset <= MAX_IDS && |cfg.pid| == 4 && |cfg.seed| < 0x1_0000
    requires forall k :: 0 <= k < |arrivals| ==> Proper(arrivals[k])
    ensures start == StartOrder(n, randomize, rand) && Partition(Lists(start, []), n) && |slots| == n
    ensures |ops| == |arrivals| && forall k :: 0 <= k < |arrivals| ==> Caused(arrivals[k], ops[k])
    ensures InOrderAfter(slots, active, Run(Lists(start, []), ops), offset, remote, maxPerMac)
    ensures Accounts(closed, Lists(start, []), ops, offset)
    ensures forall p: Padt :: Times(closed, p) <= Times(log, p)
  {
    hide Partition, Run, Books, Accounts, Settled, InOrderAfter, Linked, Named, AllGood, Limited, Below, Caused,
        StartOrder;
    var pool;
    pool, start := NewPool(n, offset, remote, maxPerMac, randomize, rand);
    var server := new Server(cfg, pool);
    closed, ops := [], [];
    pool.LedgerKept();
    BooksOpen(pool.Ledger(), offset);
    for k := 0 to |arrivals|
      invariant server.Valid() && server.pool == pool && fresh(server) && fresh(pool) && fresh(pool.slots)
      invariant Books(closed, pool.Ledger(), offset, Lists(start, []), ops)
      invariant |ops| == k && forall j :: 0 <= j < k ==> Caused(arrivals[j], ops[j])
    {
      ghost var op;
      closed, op := Arrive(server, arrivals[k], closed, Lists(start, []), ops);
      ops := ops + [op];
    }
    Balance(closed, pool.Ledger(), offset, Lists(start, []), ops);
    slots, active, log := pool.slots[..], pool.numActive, pool.log;
    pool.Seen();
  }

  /** One arrival. */
  method Arrive(server: Server, arrival: Arrival, closed0: seq<Padt>, ghost start: Lists, ghost ops: seq<Op>)
    returns (closed: seq<Padt>, ghost op: Op)
    requires server.Valid() && Proper(arrival)
    requires Books(closed0, server.pool.Ledger(), server.pool.offset, start, ops)
    modifies server, server.pool, server.pool.slots
    ensures server.Valid() && old(server.pool.log) <= server.pool.log && Caused(arrival, op)
    ensures Books(closed, server.pool.Ledger(), server.pool.offset, start, ops + [op])
  {
    hide Partition, Run, Books, Goes, Linked, Named, AllGood, Limited, Below;
    closed := closed0;
    server.pool.LedgerKept();
    ghost var before := server.pool.Ledger();
    match arrival {
      case Received(p, len, child) =>
        var r := Dispatch(server, p, len, child);
        GoesOp(before, server.pool.Ledger());
        GoesGrows(before, server.pool.Ledger());
        op := OpFor(before, server.pool.Ledger());
        BooksGo(closed, before, server.pool.Ledger(), server.pool.offset, start, ops);
      case Exited(slot) =>
        closed, op := server.pool.Handle(Exit(slot), closed, start, ops);
    }
  }

  ghost predicate PadsAnswer(cfg: Config, v: Verdict, p: Packet, id: nat, f: Frame)
    requires v.Accept?
  {
    var tags := PadsTags(cfg, v.service, Heard(p));
    AllEncodable(tags) && f == Frame(p.source, cfg.mac, PADS, id, Encode(tags))
  }

  lemma {:induction false} EncodeSingle(t: Tag)
    requires Encodable(t)
    ensures AllEncodable([t]) && Encode([t]) == EncodeTag(t)
  {
    hide EncodeTag;
    assert [t][1..] == [];
  }

  lemma {:induction false} EncodeNothing()
    ensures Encode([]) == []
  {}

  lemma {:induction false} PadsTagsAre(cfg: Config, service: seq<byte>, heard: seq<Tag>)
    ensures PadsTags(cfg, service, heard) ==
            [Tag(SERVICE_NAME, EchoedService(cfg, service))]
            + OptionalTag(RELAY_SESSION_ID, LastData(heard, RELAY_SESSION_ID))
            + OptionalTag(HOST_UNIQ, LastData(heard, HOST_UNIQ))
  {}

  lemma {:induction false} AcceptMeans(cfg: Config, underLimit: bool, p: Packet)
    requires |cfg.pid| == 4 && JudgePadr(cfg, underLimit, p).Accept?
    ensures underLimit && LastData(Heard(p), SERVICE_NAME) == Some(JudgePadr(cfg, underLimit, p).service)
  {
    hide Cookie, LastData, Heard;
  }

  lemma {:induction false} PadsRoom(cfg: Config, underLimit: bool, p: Packet)
    requires |cfg.pid| == 4 && JudgePadr(cfg, underLimit, p).Accept?
    ensures var v := JudgePadr(cfg, underLimit, p);
            v.service != [] || cfg.services == [] ==> TagsSize(PadsTags(cfg, v.service, Heard(p))) <= MAX_PAYLOAD
  {
    hide Cookie, LastData, Heard, PadsTags, TagsSize, JudgePadr;
    PadsNeedsNoRoomCheck(cfg, underLimit, p);
  }

  // ----- client

  class Connection {
    const myEth: Mac
    const serviceName: Option<Name>
    const acName: Option<Name>
    const useHostUniq: bool
    const pid: seq<byte>
    var state: State
    var peerEth: Mac
    var session: nat
    var cookie: Option<seq<byte>>
    var relayId: Option<seq<byte>>

    ghost function View(): Client
      reads this
    {
      Client(state, myEth, peerEth, session, serviceName, acName, useHostUniq, pid, cookie, relayId)
    }

    /** Tags kept from packets are no longer than a payload. */
    ghost predicate Valid()
      reads this
    {
      && |pid| == 4
      && (cookie.Some? ==> |cookie.value| <= PAYLOAD_SIZE)
      && (relayId.Some? ==> |relayId.value| <= PAYLOAD_SIZE)
    }

    constructor (myEth: Mac, serviceName: Option<Name>, acName: Option<Name>, useHostUniq: bool, pid: seq<byte>)
      requires |pid| == 4
      ensures Valid() && View() == Client(SentPadi, myEth, NO_MAC, 0, serviceName, acName, useHostUniq, pid, None, None)
    {
      this.myEth, this.serviceName, this.acName := myEth, serviceName, acName;
      this.useHostUniq, this.pid := useHostUniq, pid;
      state, peerEth, session, cookie, relayId := SentPadi, NO_MAC, 0, None, None;
    }

    /** sendPADI */
    method SendPadi() returns (f: Option<Frame>)
      requires Valid()
      ensures f == MakePadi(View()) && PadiRule(View(), f)
    {
      hide PadiRule;
      MakePadiObeys(View());
      var name: Name := match serviceName case None => [] case Some(n) => n;
      var tags := if serviceName == Some(OMIT) then [] else [Tag(SERVICE_NAME, name)];
      tags := tags + (if useHostUniq then [Tag(HOST_UNIQ, pid)] else []);
      f := SendTags(BROADCAST, myEth, PADI, 0, tags);
    }

    /** sendPADR */
    method SendPadr() returns (f: Option<Frame>)
      requires Valid()
      ensures f == MakePadr(View()) && PadrRule(View(), f)
    {
      hide PadrRule;
      MakePadrObeys(View());
      var name: Name := match serviceName case None => [] case Some(n) => n;
      var tags := [Tag(SERVICE_NAME, name)] + (if useHostUniq then [Tag(HOST_UNIQ, pid)] else [])
                  + OptionalTag(AC_COOKIE, cookie) + OptionalTag(RELAY_SESSION_ID, relayId);
      f := SendTags(peerEth, myEth, PADR, 0, tags);
    }

    /** packetIsForMe */
    method IsForMe(p: Packet) returns (mine: bool)
      requires Valid()
      ensures mine == ForMe(View(), p)
    {
      hide Heard;
      if p.dest != myEth { return false; }
      if !useHostUniq { return true; }
      var tags := HearAll(p);
      mine := false;
      for i := 0 to |tags|
        invariant mine <==> Tag(HOST_UNIQ, pid) in tags[..i]
      {
        if tags[i].kind == HOST_UNIQ && |tags[i].data| == 4 && tags[i].data == pid {
          mine := true;
        }
        assert tags[..i + 1] == tags[..i] + [tags[i]];
      }
      assert tags[..|tags|] == tags;
    }

    /** parsePADOTags for one tag. */
    method TakePadoTag(s: Criteria, t: Tag) returns (r: Criteria)
      requires Valid() && |t.data| <= PAYLOAD_SIZE && !s.exited
      modifies this`cookie, this`relayId
      ensures Valid() && r.With(View()) == PadoTag(s.With(old(View())), t)
    {
      ghost var c := View();
      r := s;
      if t.kind == AC_NAME {
        r := r.(seenAc := true);
        if acName.Some? && t.data == acName.value { r := r.(acOk := true); }
      } else if t.kind == SERVICE_NAME {
        r := r.(seenService := true);
        if serviceName.Some? && t.data == serviceName.value { r := r.(serviceOk := true); }
      } else if t.kind == AC_COOKIE {
        cookie := Some(t.data);
      } else if t.kind == RELAY_SESSION_ID {
        relayId := Some(t.data);
      } else if t.kind == SERVICE_NAME_ERROR || t.kind == AC_SYSTEM_ERROR || t.kind == GENERIC_ERROR {
        r := r.(exited := true);
      }
    }

    /** One packet in waitForPADO; the criteria carry over from packet to packet. */
    method TakePado(s: Criteria, p: Packet) returns (r: Criteria)
      requires Valid() && !s.exited
      modifies this`cookie, this`relayId, this`peerEth, this`state
      ensures Valid() && r.With(View()) == OnPado(s.With(old(View())), p)
      ensures PadoHeardRule(s.With(old(View())), p, r.With(View()))
    {
      hide Heard, PadoTag, PadoHeardRule;
      OnPadoObeys(s.With(View()), p);
      r := s;
      var mine := IsForMe(p);
      if !mine || p.code != PADO || NotUnicast(p.source) { return; }
      var tags := HearAll(p);
      HeardIsSmall(p);
      ghost var all := ScanPado(s.With(View()), tags);
      var i := 0;
      while i < |tags| && !r.exited
        invariant i <= |tags| && Valid()
        invariant ScanPado(r.With(View()), tags[i..]) == all
        invariant state == old(state) && peerEth == old(peerEth)
      {
        assert tags[i..][1..] == tags[i + 1..];
        r := TakePadoTag(r, tags[i]);
        i := i + 1;
      }
      ScanExited(r.With(View()), tags[i..]);
      if r.exited { return; }
      if !r.seenAc { return; }
      if !r.seenService { return; }
      if r.acOk && r.serviceOk {
        peerEth := p.source;
        state := ReceivedPado;
      }
    }

    /** One packet in waitForPADS. */
    method TakePads(p: Packet)
      requires Valid()
      modifies this`relayId, this`state, this`session
      ensures Valid() && View() == OnPads(old(View()), p) && PadsRule(old(View()), p, View())
    {
      hide Heard, LastData, PadsRule;
      OnPadsObeys(View(), p);
      if p.source != peerEth { return; }
      var mine := IsForMe(p);
      if !mine || p.code != PADS { return; }
      var relay := Remember(p, RELAY_SESSION_ID);
      RememberedSmall(p, RELAY_SESSION_ID);
      if relay.Some? { relayId := relay; }
      var tags := HearAll(p);
      var hadError := false;
      for i := 0 to |tags|
        invariant hadError <==>
                    exists j :: 0 <= j < i && tags[j].kind in {SERVICE_NAME_ERROR, AC_SYSTEM_ERROR, GENERIC_ERROR}
      {
        if tags[i].kind == GENERIC_ERROR || tags[i].kind == AC_SYSTEM_ERROR || tags[i].kind == SERVICE_NAME_ERROR {
          hadError := true;
        }
      }
      if !hadError {
        state := Session;
        session := p.session;
      }
    }
  }

  /** PacketCriteria, and whether the program has exited. */
  datatype Criteria = Criteria(acOk: bool, serviceOk: bool, seenAc: bool, seenService: bool, exited: bool) {
    function With(c: Client): Scan {
      Scan(c, acOk, serviceOk, seenAc, seenService, exited)
    }
  }

  lemma {:induction false} ScanExited(s: Scan, tags: seq<Tag>)
    requires s.exited || tags == []
    ensures ScanPado(s, tags) == s
    decreases |tags|
  {
    if tags != [] { ScanExited(s, tags[1..]); }
  }

  lemma {:induction false} HeardIsSmall(p: Packet)
    ensures forall i :: 0 <= i < |Heard(p)| ==> |Heard(p)[i].data| <= PAYLOAD_SIZE
  {
    ParseIsSafe(p);
    HeardSmall(p.payload, Parse(p).slices);
  }

  // ----- the exchange

  /** What the server can bring to a request from `mac`. */
  ghost function SupplyOf(server: Server, mac: Mac, child: int): Supply
    reads server.pool, server.pool.slots
    requires server.Valid()
  {
    var pool := server.pool;
    Supply(server.UnderLimit(mac), if pool.free == [] then None else Some(pool.slots[pool.free[0]].sess), child > 0)
  }

  lemma {:induction false} PadsFitsInExchange(cfg: Config, c: Client, underLimit: bool, stale: Payload)
    requires |cfg.pid| == 4 && |c.pid| == 4 && c.relayId.None?
    requires Fits(OfferTags(cfg, c)) && Fits(RequestTags(cfg, c)) && NamesMatch(cfg, c) && !NotUnicast(c.myEth)
    ensures MakePadr(Informed(cfg, c)).Some?
    ensures var p := Receive(MakePadr(Informed(cfg, c)).value, stale);
            var tags := PadsTags(cfg, Wanted(c), Heard(p));
            && JudgePadr(cfg, underLimit, p) == (if underLimit then Accept(Wanted(c)) else Drop)
            && p.source == c.myEth && Fits(tags) && TagsSize(tags) <= MAX_PAYLOAD
  {
    hide Cookie, Encode, Heard, JudgePadr, PadsTags, TagsSize;
    RequestAccepted(cfg, c, underLimit, stale);
    ConfirmationAccepted(cfg, c, 0, stale);
    var p := Receive(MakePadr(Informed(cfg, c)).value, stale);
    EncodedSize(PadsTags(cfg, Wanted(c), Heard(p)));
  }

  lemma {:induction false} PadrOf(cfg: Config, c: Client)
    requires |cfg.pid| == 4 && c.relayId.None?
    ensures MakePadr(Informed(cfg, c)) == Send(cfg.mac, c.myEth, PADR, 0, RequestTags(cfg, c))
  {
    hide Cookie, Encode;
    assert PadrTags(Informed(cfg, c)) == RequestTags(cfg, c) + [] == RequestTags(cfg, c);
  }

  /** What the server makes of the client's PADI. */
  function PadoFor(cfg: Config, c: Client, underLimit: bool, stale: Payload): Option<Frame>
    requires |cfg.pid| == 4
  {
    match MakePadi(c)
    case None => None
    case Some(padi) => AnswerPadi(cfg, underLimit, Receive(padi, stale))
  }

  /** The client after a PADO that answers its PADI. */
  lemma {:induction false} OfferTaken(cfg: Config, c: Client, supply: Supply, b: Buffers)
    requires |cfg.pid| == 4 && |c.pid| == 4 && c.state == SentPadi
    ensures var pado := PadoFor(cfg, c, supply.underLimit, b.atServer1);
            if pado.None? then Handshake(cfg, c, supply, b) == c
            else
              && |pado.value.body| <= MAX_PAYLOAD
              && var s := OnPado(StartScan(c), Receive(pado.value, b.atClient1));
                 if s.exited || s.c.state != ReceivedPado then
                   s.c.state == SentPadi && Handshake(cfg, c, supply, b) == s.c
                 else
                   && s.c == Informed(cfg, c) && NamesMatch(cfg, c) && !NotUnicast(c.myEth)
                   && Fits(OfferTags(cfg, c)) && Handshake(cfg, c, supply, b) == SecondHalf(cfg, s.c, supply, b)
  {
    hide Cookie, Encode, Heard, AnswerPadi, OnPado, SecondHalf, OfferTags;
    PadoEncodable(cfg, c);
    var pado := PadoFor(cfg, c, supply.underLimit, b.atServer1);
    if pado.Some? {
      AnswerToPadi(cfg, c, supply.underLimit, b.atServer1);
      ReactionToOffer(cfg, c, b.atClient1);
    }
  }

  /** PADI out, PADO back. */
  method Ask(conn: Connection, server: Server, stale: Payload) returns (pado: Option<Frame>)
    requires conn.Valid() && server.Valid()
    modifies server
    ensures server.Valid() && pado == PadoFor(server.cfg, conn.View(), server.UnderLimit(conn.myEth), stale)
  {
    hide PadoRule, PadiRule, AnswerPadi, MakePadi, Encode, Linked, Partition, Named, AllGood, Limited, Below, Holding;
    var padi := conn.SendPadi();
    if padi.None? { return None; }
    PadiSource(conn.View());
    pado := server.ProcessPadi(Receive(padi.value, stale));
  }

  lemma {:induction false} PadiSource(c: Client)
    ensures MakePadi(c).Some? ==> MakePadi(c).value.source == c.myEth && |MakePadi(c).value.body| <= MAX_PAYLOAD
  {
    hide Encode;
  }

  /** PADI out, PADO back, and what the client makes of it. */
  method Offer(conn: Connection, server: Server, b: Buffers, ghost supply: Supply) returns (ok: bool)
    requires conn.Valid() && server.Valid() && supply.underLimit == server.UnderLimit(conn.myEth)
    requires conn.state == SentPadi && conn.relayId.None?
    modifies conn, server
    ensures conn.Valid() && server.Valid()
    ensures var cfg, c := server.cfg, old(conn.View());
            && Handshake(cfg, c, supply, b) == (if ok then SecondHalf(cfg, conn.View(), supply, b) else conn.View())
            && (ok ==> conn.View() == Informed(cfg, c))
            && (ok ==> NamesMatch(cfg, c) && !NotUnicast(c.myEth) && Fits(OfferTags(cfg, c)))
            && (!ok ==> conn.state == SentPadi)
  {
    hide PadoHeardRule, PadoFor, Handshake, OnPado, SecondHalf, OfferTags, Informed, NamesMatch, Linked, Partition,
        Named, AllGood, Limited, Below, Holding;
    OfferTaken(server.cfg, conn.View(), supply, b);
    var pado := Ask(conn, server, b.atServer1);
    if pado.None? { return false; }
    var start := Criteria(conn.acName.None?, conn.serviceName.None?, false, false, false);
    var r := conn.TakePado(start, Receive(pado.value, b.atClient1));
    ok := !r.exited && conn.state == ReceivedPado;
  }

  /** PADR out, PADS back, for a client that has taken up the offer. */
  method Confirmation(conn: Connection, server: Server, b: Buffers, child: int, ghost c: Client) returns (slot: int)
    requires conn.Valid() && server.Valid() && child != 0
    requires c.relayId.None? && c.pid == conn.pid && c.myEth == conn.myEth
    requires conn.View() == Informed(server.cfg, c)
    requires NamesMatch(server.cfg, c) && !NotUnicast(c.myEth) && Fits(OfferTags(server.cfg, c))
    modifies conn, server, server.pool, server.pool.slots
    ensures conn.Valid() && server.Valid()
    ensures conn.View() == old(SecondHalf(server.cfg, conn.View(), SupplyOf(server, conn.myEth, child), b))
    ensures conn.state == Session ==>
              && 0 <= slot < server.pool.n && slot in server.pool.busy
              && conn.session == server.pool.slots[slot].sess && server.pool.slots[slot].eth == conn.myEth
              && server.pool.View() == Take(old(server.pool.View()))
  {
    hide PadrOutcome, PadsSays, PadrRule, PadsRule, Authentic, Served;
    hide Cookie, Encode, Heard, OnPads, JudgePadr, PadsTags, Holding, Linked, Partition, Named, AllGood, Limited,
        Below, Take, TagsSize;
    slot := NULL;
    ghost var cfg := server.cfg;
    ghost var supply := SupplyOf(server, conn.myEth, child);
    RequestSize(cfg, c);
    PadrOf(cfg, c);
    var padr := conn.SendPadr();
    conn.state := SentPadr;
    if padr.None? { return; }
    PadsFitsInExchange(cfg, c, supply.underLimit, b.atServer2);
    var p := Receive(padr.value, b.atServer2);
    var a := server.ProcessPadr(p, child);
    if !a.Confirm? {
      assert PadsFor(cfg, supply, p).None?;
      return;
    }
    assert PadsFor(cfg, supply, p) == Some(a.pads);
    SessionFromPads(conn.View(), Receive(a.pads, b.atClient2));
    conn.TakePads(Receive(a.pads, b.atClient2));
    slot := a.slot;
  }

  lemma {:induction false} SessionFromPads(c: Client, p: Packet)
    ensures OnPads(c, p).state == Session ==> c.state == Session || OnPads(c, p).session == p.session
  {
    hide Heard, LastData;
  }

  /** One discovery attempt: PADI, PADO, PADR, PADS between one client and one server, each packet
      arriving in a buffer with arbitrary left-over bytes. */
  method Discover(conn: Connection, server: Server, b: Buffers, child: int) returns (slot: int)
    requires conn.Valid() && server.Valid() && child != 0
    requires conn.state == SentPadi && conn.cookie.None? && conn.relayId.None?
    modifies conn, server, server.pool, server.pool.slots
    ensures conn.Valid() && server.Valid()
    ensures conn.state == Session <==> old(Ready(server.cfg, conn.View(), SupplyOf(server, conn.myEth, child)))
    ensures conn.state == Session ==>
              && 0 <= slot < server.pool.n && slot in server.pool.busy
              && conn.session == server.pool.slots[slot].sess && server.pool.slots[slot].eth == conn.myEth
              && conn.peerEth == server.cfg.mac
              && server.pool.View() == Take(old(server.pool.View()))
  {
    hide Cookie, Encode, Handshake, SecondHalf, Ready, Holding, Linked, Partition, Named, AllGood, Limited, Below,
        Take, OfferTags;
    slot := NULL;
    ghost var c := conn.View();
    ghost var supply := SupplyOf(server, conn.myEth, child);
    HandshakeSucceedsExactlyWhenReady(server.cfg, c, supply, b);
    var ok := Offer(conn, server, b, supply);
    if ok {
      slot := Confirmation(conn, server, b, child, c);
    }
  }
}
