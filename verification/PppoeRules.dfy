/** What the two programs make of any packet at all, said of the tags heard in it: when the server
    offers, starts a session or answers with an error, what its answers carry, and when the client
    takes an offer or a confirmation. */
module PppoeRules {
  import opened Bytes
  import opened Options
  import opened PppoeTags
  import opened PppoeDiscovery
  import Md5Spec

  // ----- tags by their place

  ghost predicate LatestAt(tags: seq<Tag>, kind: nat, data: seq<byte>, i: nat) {
    i < |tags| && tags[i] == Tag(kind, data) && forall j :: i < j < |tags| ==> tags[j].kind != kind
  }

  /** `data` is in the last tag of its kind. */
  ghost predicate Latest(tags: seq<Tag>, kind: nat, data: seq<byte>) { exists i :: LatestAt(tags, kind, data, i) }

  ghost predicate Absent(tags: seq<Tag>, kind: nat) { forall i :: 0 <= i < |tags| ==> tags[i].kind != kind }

  lemma {:induction false} LastIsLatest(tags: seq<Tag>, kind: nat)
    ensures LastData(tags, kind).None? <==> Absent(tags, kind)
    ensures forall d :: LastData(tags, kind) == Some(d) <==> Latest(tags, kind, d)
    decreases |tags|
  {
    hide Latest;
    if tags == [] {
      NoLatest(kind);
    } else {
      var before, t := tags[..|tags| - 1], tags[|tags| - 1];
      LastIsLatest(before, kind);
      forall d ensures Latest(tags, kind, d) <==> if t.kind == kind then t.data == d else Latest(before, kind, d) {
        LatestSnoc(before, t, kind, d);
        assert tags == before + [t];
      }
    }
  }

  lemma {:induction false} NoLatest(kind: nat)
    ensures forall d :: !Latest([], kind, d)
  {
  }

  lemma {:induction false} LatestSnoc(before: seq<Tag>, t: Tag, kind: nat, d: seq<byte>)
    ensures Latest(before + [t], kind, d) <==> if t.kind == kind then t.data == d else Latest(before, kind, d)
  {
    var tags, n := before + [t], |before|;
    if Latest(tags, kind, d) {
      var i: nat :| LatestAt(tags, kind, d, i);
      if i < n {
        assert tags[n] == t;
        assert forall j :: i < j < n ==> before[j] == tags[j];
        assert LatestAt(before, kind, d, i);
      }
    }
    if t == Tag(kind, d) { assert LatestAt(tags, kind, d, n); }
    if t.kind != kind && Latest(before, kind, d) {
      var i: nat :| LatestAt(before, kind, d, i);
      assert LatestAt(tags, kind, d, i);
    }
  }

  // ----- the server and a PADR

  /** The cookie for a peer: the MD5 of both addresses and the seed, and the process id. */
  ghost function CookieFor(cfg: Config, peer: Mac): seq<byte> {
    FromBits(Md5Spec.Digest(ToBits(peer) + ToBits(cfg.mac) + ToBits(cfg.seed))) + cfg.pid
  }

  /** Addressed to the server, from a unicast peer that may have one more session, with its cookie. */
  ghost predicate Authentic(cfg: Config, underLimit: bool, p: Packet) {
    p.dest == cfg.mac && p.source[0] % 2 == 0 && underLimit && Latest(Heard(p), AC_COOKIE, CookieFor(cfg, p.source))
  }

  ghost predicate AsksFor(cfg: Config, p: Packet, service: seq<byte>) {
    Latest(Heard(p), SERVICE_NAME, service) && (service == [] || service in cfg.services)
  }

  /** A service is named, and it is empty or configured. */
  ghost predicate Served(cfg: Config, p: Packet) { exists service :: AsksFor(cfg, p, service) }

  lemma {:induction false} JudgedBy(cfg: Config, underLimit: bool, p: Packet)
    requires |cfg.pid| == 4
    ensures var v := JudgePadr(cfg, underLimit, p);
            && (v.Drop? <==> !Authentic(cfg, underLimit, p))
            && (v.Error? <==> Authentic(cfg, underLimit, p) && !Served(cfg, p))
            && (v.Error? ==> v.tag == SERVICE_NAME_ERROR)
            && (v.Accept? ==> AsksFor(cfg, p, v.service))
  {
    hide LastData, Heard, Latest, Md5Spec.Digest;
    var heard := Heard(p);
    LastIsLatest(heard, AC_COOKIE);
    LastIsLatest(heard, SERVICE_NAME);
    assert Cookie(cfg, p.source) == CookieFor(cfg, p.source);
    var service := LastData(heard, SERVICE_NAME);
    if service.Some? {
      assert Latest(heard, SERVICE_NAME, service.value);
      assert forall d :: Latest(heard, SERVICE_NAME, d) ==> d == service.value;
      assert AsksFor(cfg, p, service.value) <==> service.value == [] || service.value in cfg.services;
    }
  }

  // ----- what the answers carry

  /** Relay id and host-uniq come back as heard, and only those heard. */
  ghost predicate Echoes(tags: seq<Tag>, heard: seq<Tag>) {
    forall d :: (Tag(RELAY_SESSION_ID, d) in tags <==> Latest(heard, RELAY_SESSION_ID, d))
             && (Tag(HOST_UNIQ, d) in tags <==> Latest(heard, HOST_UNIQ, d))
  }

  ghost predicate OnlyKinds(tags: seq<Tag>, kinds: set<nat>) {
    forall i :: 0 <= i < |tags| ==> tags[i].kind in kinds
  }

  lemma {:induction false} EchoedTag(heard: seq<Tag>, kind: nat, d: seq<byte>)
    ensures Tag(kind, d) in OptionalTag(kind, LastData(heard, kind)) <==> Latest(heard, kind, d)
    ensures forall t :: t in OptionalTag(kind, LastData(heard, kind)) ==> t.kind == kind
  {
    hide LastData, Latest;
    LastIsLatest(heard, kind);
  }

  /** The tags of a PADS: the service asked for, or the first configured one for an empty request. */
  ghost predicate ConfirmationTags(cfg: Config, heard: seq<Tag>, tags: seq<Tag>) {
    && Echoes(tags, heard) && OnlyKinds(tags, {SERVICE_NAME, RELAY_SESSION_ID, HOST_UNIQ})
    && forall d :: Tag(SERVICE_NAME, d) in tags <==> Confirms(cfg, heard, d)
  }

  ghost predicate Confirms(cfg: Config, heard: seq<Tag>, d: seq<byte>) {
    exists s: seq<byte> ::
      Latest(heard, SERVICE_NAME, s) && d == if s == [] && cfg.services != [] then cfg.services[0] else s
  }

  lemma {:induction false} ConfirmsEcho(cfg: Config, heard: seq<Tag>, service: seq<byte>)
    requires Latest(heard, SERVICE_NAME, service)
    ensures forall d :: Confirms(cfg, heard, d) <==> d == EchoedService(cfg, service)
  {
    hide Latest, LastData;
    LastIsLatest(heard, SERVICE_NAME);
    assert |service| == 0 <==> service == [];
  }

  lemma {:induction false} ConfirmationCarries(cfg: Config, heard: seq<Tag>, service: seq<byte>)
    requires Latest(heard, SERVICE_NAME, service)
    ensures ConfirmationTags(cfg, heard, PadsTags(cfg, service, heard))
  {
    hide LastData, Latest;
    var tags := PadsTags(cfg, service, heard);
    var r, h := OptionalTag(RELAY_SESSION_ID, LastData(heard, RELAY_SESSION_ID)),
                OptionalTag(HOST_UNIQ, LastData(heard, HOST_UNIQ));
    LastIsLatest(heard, SERVICE_NAME);
    assert forall s :: Latest(heard, SERVICE_NAME, s) <==> s == service;
    ThreeParts([Tag(SERVICE_NAME, EchoedService(cfg, service))], r, h);
    forall d
      ensures Tag(RELAY_SESSION_ID, d) in r <==> Latest(heard, RELAY_SESSION_ID, d)
      ensures Tag(HOST_UNIQ, d) in h <==> Latest(heard, HOST_UNIQ, d)
      ensures forall t :: t in r ==> t.kind == RELAY_SESSION_ID
      ensures forall t :: t in h ==> t.kind == HOST_UNIQ
    {
      EchoedTag(heard, RELAY_SESSION_ID, d);
      EchoedTag(heard, HOST_UNIQ, d);
    }
    ConfirmsEcho(cfg, heard, service);
  }

  lemma {:induction false} ThreeParts(a: seq<Tag>, b: seq<Tag>, c: seq<Tag>)
    ensures forall t :: t in a + b + c <==> t in a || t in b || t in c
  {
  }

  /** The tags of a PADO: name, every service, or an empty one when none is configured, and cookie. */
  ghost predicate OfferCarries(cfg: Config, peer: Mac, heard: seq<Tag>, tags: seq<Tag>) {
    && Echoes(tags, heard) && OnlyKinds(tags, {AC_NAME, SERVICE_NAME, AC_COOKIE, RELAY_SESSION_ID, HOST_UNIQ})
    && forall d ::
         && (Tag(AC_NAME, d) in tags <==> d == cfg.acName)
         && (Tag(AC_COOKIE, d) in tags <==> d == CookieFor(cfg, peer))
         && (Tag(SERVICE_NAME, d) in tags <==> d in cfg.services || (cfg.services == [] && d == []))
  }

  lemma {:induction false} ServicesListed(names: seq<Name>)
    ensures forall t :: t in ServiceTags(names) <==> t.kind == SERVICE_NAME && t.data in names
    decreases |names|
  {
    if names != [] {
      ServicesListed(names[1..]);
      assert names == [names[0]] + names[1..];
    }
  }

  lemma {:induction false} OfferIs(cfg: Config, peer: Mac, heard: seq<Tag>)
    requires |cfg.pid| == 4
    ensures OfferCarries(cfg, peer, heard, PadoTags(cfg, peer, heard))
  {
    hide LastData, Latest, ServiceTags, Md5Spec.Digest;
    var tags := PadoTags(cfg, peer, heard);
    var a, sv, ck := [Tag(AC_NAME, cfg.acName)], ServiceTags(Offered(cfg)), [Tag(AC_COOKIE, Cookie(cfg, peer))];
    var r, h := OptionalTag(RELAY_SESSION_ID, LastData(heard, RELAY_SESSION_ID)),
                OptionalTag(HOST_UNIQ, LastData(heard, HOST_UNIQ));
    assert Cookie(cfg, peer) == CookieFor(cfg, peer);
    ServicesListed(Offered(cfg));
    ThreeParts(a, sv, ck);
    ThreeParts(a + sv + ck, r, h);
    forall d
      ensures Tag(RELAY_SESSION_ID, d) in r <==> Latest(heard, RELAY_SESSION_ID, d)
      ensures Tag(HOST_UNIQ, d) in h <==> Latest(heard, HOST_UNIQ, d)
      ensures forall t :: t in r ==> t.kind == RELAY_SESSION_ID
      ensures forall t :: t in h ==> t.kind == HOST_UNIQ
    {
      EchoedTag(heard, RELAY_SESSION_ID, d);
      EchoedTag(heard, HOST_UNIQ, d);
    }
  }

  // ----- the server and a PADI

  /** From a unicast peer that may have one more session, asking for nothing or for a configured service. */
  ghost predicate Welcome(cfg: Config, underLimit: bool, p: Packet) {
    p.source[0] % 2 == 0 && underLimit && (Absent(Heard(p), SERVICE_NAME) || Served(cfg, p))
  }

  /** An offer goes out exactly to a welcome PADI, when its tags fit. */
  ghost predicate PadoRule(cfg: Config, underLimit: bool, p: Packet, pado: Option<Frame>) {
    exists tags :: OfferCarries(cfg, p.source, Heard(p), tags) && OffersThese(cfg, underLimit, p, pado, tags)
  }

  ghost predicate OffersThese(cfg: Config, underLimit: bool, p: Packet, pado: Option<Frame>, tags: seq<Tag>) {
    && (pado.Some? <==> Welcome(cfg, underLimit, p) && AllEncodable(tags) && |Encode(tags)| <= 1494)
    && (pado.Some? ==> pado.value == Frame(p.source, cfg.mac, 0x07, 0, Encode(tags)))
  }

  lemma {:induction false} AnswerPadiObeys(cfg: Config, underLimit: bool, p: Packet)
    requires |cfg.pid| == 4
    ensures PadoRule(cfg, underLimit, p, AnswerPadi(cfg, underLimit, p))
  {
    hide LastData, Heard, Latest, Encode, OfferCarries, PadoTags;
    var heard := Heard(p);
    LastIsLatest(heard, SERVICE_NAME);
    OfferIs(cfg, p.source, heard);
    var wanted := LastData(heard, SERVICE_NAME);
    if wanted.Some? {
      assert Latest(heard, SERVICE_NAME, wanted.value);
      assert AsksFor(cfg, p, wanted.value) <==> wanted.value == [] || wanted.value in cfg.services;
      assert forall d :: Latest(heard, SERVICE_NAME, d) ==> d == wanted.value;
    }
    assert Welcome(cfg, underLimit, p) <==> !NotUnicast(p.source) && underLimit && WantsOffered(cfg, wanted);
    assert OffersThese(cfg, underLimit, p, AnswerPadi(cfg, underLimit, p), PadoTags(cfg, p.source, heard));
  }

  // ----- the client

  /** Its own address, and its own host-uniq if it sends one. */
  ghost predicate ToClient(c: Client, p: Packet) {
    p.dest == c.myEth && (c.useHostUniq ==> Tag(HOST_UNIQ, c.pid) in Heard(p))
  }

  ghost predicate Faulty(tags: seq<Tag>) { exists t :: t in tags && t.kind in {0x0201, 0x0202, 0x0203} }

  /** The last one heard, or the one held before. */
  ghost predicate Updated(before: Option<seq<byte>>, tags: seq<Tag>, kind: nat, now: Option<seq<byte>>) {
    (Absent(tags, kind) ==> now == before) && forall d :: Latest(tags, kind, d) ==> now == Some(d)
  }

  /** The session begins exactly with a PADS from the chosen server, for this client, without an error. */
  ghost predicate PadsRule(c: Client, p: Packet, r: Client) {
    var taken := p.source == c.peerEth && ToClient(c, p) && p.code == 0x65;
    && (!taken ==> r == c)
    && (taken ==>
          && Updated(c.relayId, Heard(p), RELAY_SESSION_ID, r.relayId)
          && r == if Faulty(Heard(p)) then c.(relayId := r.relayId)
                  else c.(relayId := r.relayId, state := Session, session := p.session))
  }

  lemma {:induction false} UpdatedBy(before: Option<seq<byte>>, tags: seq<Tag>, kind: nat)
    ensures Updated(before, tags, kind, if LastData(tags, kind).Some? then LastData(tags, kind) else before)
  {
    hide LastData, Latest;
    LastIsLatest(tags, kind);
  }

  lemma {:induction false} FaultyIs(tags: seq<Tag>)
    ensures Faulty(tags) <==> HasError(tags)
  {
    if HasError(tags) {
      var i :| 0 <= i < |tags| && tags[i].kind in {SERVICE_NAME_ERROR, AC_SYSTEM_ERROR, GENERIC_ERROR};
      assert tags[i] in tags;
    }
  }

  lemma {:induction false} OnPadsObeys(c: Client, p: Packet)
    ensures PadsRule(c, p, OnPads(c, p))
  {
    hide LastData, Heard, Latest, Updated;
    UpdatedBy(c.relayId, Heard(p), RELAY_SESSION_ID);
    FaultyIs(Heard(p));
  }

  /** A name is acceptable once it was, or when none is asked for, or when it is heard. */
  ghost predicate Heeded(ok: bool, wanted: Option<Name>, tags: seq<Tag>, kind: nat, now: bool) {
    now <==> ok || (wanted.Some? && Tag(kind, wanted.value) in tags)
  }

  ghost predicate Seen(seen: bool, tags: seq<Tag>, kind: nat, now: bool) { now <==> seen || !Absent(tags, kind) }

  /** An error tag ends the program; the offer is taken when both names have been seen and are right. */
  ghost predicate PadoTaken(s: Scan, p: Packet, r: Scan) {
    var tags := Heard(p);
    && (r.exited <==> Faulty(tags))
    && (!r.exited ==>
          && Seen(s.seenAc, tags, AC_NAME, r.seenAc) && Seen(s.seenService, tags, SERVICE_NAME, r.seenService)
          && Heeded(s.acOk, s.c.acName, tags, AC_NAME, r.acOk)
          && Heeded(s.serviceOk, s.c.serviceName, tags, SERVICE_NAME, r.serviceOk)
          && Updated(s.c.cookie, tags, AC_COOKIE, r.c.cookie)
          && Updated(s.c.relayId, tags, RELAY_SESSION_ID, r.c.relayId)
          && var c := s.c.(cookie := r.c.cookie, relayId := r.c.relayId);
             r.c == if r.seenAc && r.seenService && r.acOk && r.serviceOk
                    then c.(peerEth := p.source, state := ReceivedPado) else c)
  }

  ghost predicate PadoHeardRule(s: Scan, p: Packet, r: Scan) {
    if ToClient(s.c, p) && p.code == 0x07 && p.source[0] % 2 == 0 then PadoTaken(s, p, r) else r == s
  }

  // What a scan of tags does, said of the tags as a whole.
  ghost predicate Scanned(s: Scan, tags: seq<Tag>, r: Scan) {
    && (r.exited <==> HasError(tags))
    && (!r.exited ==>
          r == s.(seenAc := s.seenAc || !Absent(tags, AC_NAME),
                  seenService := s.seenService || !Absent(tags, SERVICE_NAME),
                  acOk := s.acOk || (s.c.acName.Some? && Tag(AC_NAME, s.c.acName.value) in tags),
                  serviceOk := s.serviceOk
                               || (s.c.serviceName.Some? && Tag(SERVICE_NAME, s.c.serviceName.value) in tags),
                  c := s.c.(cookie := Later(tags, AC_COOKIE, s.c.cookie),
                            relayId := Later(tags, RELAY_SESSION_ID, s.c.relayId))))
  }

  function Later(tags: seq<Tag>, kind: nat, before: Option<seq<byte>>): Option<seq<byte>> {
    if LastData(tags, kind).Some? then LastData(tags, kind) else before
  }

  lemma {:induction false} LaterSnoc(a: seq<Tag>, t: Tag, kind: nat, before: Option<seq<byte>>)
    ensures Later(a + [t], kind, before) == if t.kind == kind then Some(t.data) else Later(a, kind, before)
  {
    assert (a + [t])[..|a|] == a;
  }

  lemma {:induction false} ScanSnoc(s: Scan, a: seq<Tag>, t: Tag)
    ensures ScanPado(s, a + [t]) == PadoTag(ScanPado(s, a), t)
  {
    hide PadoTag, ScanPado;
    ScanConcat(s, a, [t]);
    ScanOne(ScanPado(s, a), t);
  }

  lemma {:induction false} TagsSnoc(a: seq<Tag>, t: Tag)
    ensures HasError(a + [t]) <==> HasError(a) || t.kind in {SERVICE_NAME_ERROR, AC_SYSTEM_ERROR, GENERIC_ERROR}
    ensures forall kind: nat :: Absent(a + [t], kind) <==> Absent(a, kind) && t.kind != kind
    ensures forall u :: u in a + [t] <==> u in a || u == t
  {
    var b := a + [t];
    assert b[|a|] == t && forall i :: 0 <= i < |a| ==> b[i] == a[i];
  }

  lemma {:induction false} ScanLaw(s: Scan, tags: seq<Tag>)
    requires !s.exited
    ensures Scanned(s, tags, ScanPado(s, tags))
    decreases |tags|
  {
    hide Later, Absent, HasError;
    if tags == [] {
      ScanNothing(s);
    } else {
      var a, t := tags[..|tags| - 1], tags[|tags| - 1];
      assert tags == a + [t];
      ScanLaw(s, a);
      ScanSnoc(s, a, t);
      TagsSnoc(a, t);
      LaterSnoc(a, t, AC_COOKIE, s.c.cookie);
      LaterSnoc(a, t, RELAY_SESSION_ID, s.c.relayId);
    }
  }

  lemma {:induction false} ScanNothing(s: Scan)
    requires !s.exited
    ensures Scanned(s, [], ScanPado(s, []))
  {
  }

  lemma {:induction false} OnPadoObeys(s: Scan, p: Packet)
    requires !s.exited
    ensures PadoHeardRule(s, p, OnPado(s, p))
  {
    hide LastData, Heard, Latest, ScanPado, Absent, HasError, Faulty, Updated;
    var tags := Heard(p);
    ScanLaw(s, tags);
    FaultyIs(tags);
    UpdatedBy(s.c.cookie, tags, AC_COOKIE);
    UpdatedBy(s.c.relayId, tags, RELAY_SESSION_ID);
  }

  // ----- what the client sends

  ghost predicate Requested(c: Client, tags: seq<Tag>) {
    && OnlyKinds(tags, {SERVICE_NAME, HOST_UNIQ, AC_COOKIE, RELAY_SESSION_ID})
    && forall d: seq<byte> ::
         && (Tag(SERVICE_NAME, d) in tags <==> if c.serviceName.Some? then d == c.serviceName.value else d == [])
         && (Tag(HOST_UNIQ, d) in tags <==> c.useHostUniq && d == c.pid)
         && (Tag(AC_COOKIE, d) in tags <==> c.cookie == Some(d))
         && (Tag(RELAY_SESSION_ID, d) in tags <==> c.relayId == Some(d))
  }

  ghost predicate SentWith(f: Option<Frame>, dest: Mac, source: Mac, code: nat, tags: seq<Tag>) {
    && (f.Some? <==> AllEncodable(tags) && |Encode(tags)| <= 1494)
    && (f.Some? ==> f.value == Frame(dest, source, code, 0, Encode(tags)))
  }

  /** A PADR carries service, host-uniq, and the cookie and relay id held, to the chosen server. */
  ghost predicate PadrRule(c: Client, f: Option<Frame>) {
    exists tags :: Requested(c, tags) && SentWith(f, c.peerEth, c.myEth, 0x19, tags)
  }

  lemma {:induction false} InOptional(kind: nat, data: Option<seq<byte>>)
    ensures forall t :: t in OptionalTag(kind, data) <==> t.kind == kind && data == Some(t.data)
  {
  }

  lemma {:induction false} InHostUniq(c: Client)
    ensures forall t :: t in HostUniqTags(c) <==> c.useHostUniq && t == Tag(HOST_UNIQ, c.pid)
  {
  }

  lemma {:induction false} PadrTagsAre(c: Client)
    ensures Requested(c, PadrTags(c))
  {
    hide OptionalTag, HostUniqTags;
    var a, b := [Tag(SERVICE_NAME, Wanted(c))], HostUniqTags(c);
    var k, r := OptionalTag(AC_COOKIE, c.cookie), OptionalTag(RELAY_SESSION_ID, c.relayId);
    InHostUniq(c);
    InOptional(AC_COOKIE, c.cookie);
    InOptional(RELAY_SESSION_ID, c.relayId);
    TwoParts(a, b);
    ThreeParts(a + b, k, r);
  }

  lemma {:induction false} TwoParts(a: seq<Tag>, b: seq<Tag>)
    ensures forall t :: t in a + b <==> t in a || t in b
  {
  }

  lemma {:induction false} MakePadrObeys(c: Client)
    ensures PadrRule(c, MakePadr(c))
  {
    hide Encode, PadrTags, Requested;
    PadrTagsAre(c);
    assert SentWith(MakePadr(c), c.peerEth, c.myEth, 0x19, PadrTags(c));
  }

  ghost predicate Solicited(c: Client, tags: seq<Tag>) {
    && OnlyKinds(tags, {SERVICE_NAME, HOST_UNIQ})
    && forall d: seq<byte> ::
         && (Tag(SERVICE_NAME, d) in tags <==>
               c.serviceName != Some(OMIT) && if c.serviceName.Some? then d == c.serviceName.value else d == [])
         && (Tag(HOST_UNIQ, d) in tags <==> c.useHostUniq && d == c.pid)
  }

  /** A PADI carries service and host-uniq, to everyone. */
  ghost predicate PadiRule(c: Client, f: Option<Frame>) {
    exists tags :: Solicited(c, tags) && SentWith(f, [255, 255, 255, 255, 255, 255], c.myEth, 0x09, tags)
  }

  lemma {:induction false} MakePadiObeys(c: Client)
    ensures PadiRule(c, MakePadi(c))
  {
    hide Encode;
    var tags := PadiTags(c);
    assert Solicited(c, tags);
    assert SentWith(MakePadi(c), [255, 255, 255, 255, 255, 255], c.myEth, 0x09, tags);
  }

  // ----- a relay agent's tag comes back to it

  lemma {:induction false} OnlyOne(tags: seq<Tag>, kind: nat, d: seq<byte>)
    requires forall e :: Tag(kind, e) in tags <==> e == d
    ensures Latest(tags, kind, d)
  {
    hide LastData;
    LastIsLatest(tags, kind);
    assert Tag(kind, d) in tags;
    var x := LastData(tags, kind).value;
    assert Latest(tags, kind, x);
    var i: nat :| LatestAt(tags, kind, x, i);
    assert tags[i] in tags;
  }

  lemma {:induction false} OfferEchoesRelay(cfg: Config, peer: Mac, heard: seq<Tag>, d: seq<byte>)
    requires |cfg.pid| == 4 && Latest(heard, RELAY_SESSION_ID, d)
    ensures Latest(PadoTags(cfg, peer, heard), RELAY_SESSION_ID, d)
  {
    hide PadoTags, LastData, Latest, CookieFor;
    OfferIs(cfg, peer, heard);
    LastIsLatest(heard, RELAY_SESSION_ID);
    assert forall e :: Latest(heard, RELAY_SESSION_ID, e) <==> e == d;
    OnlyOne(PadoTags(cfg, peer, heard), RELAY_SESSION_ID, d);
  }

  /** A relay id added to a PADI is in the PADO, is held by a client that takes it, is in its PADR, and
      is in the PADS. */
  lemma {:induction false} RelayIdReturns(cfg: Config, supply: Supply, padi: Packet, s: Scan, b: Buffers, d: seq<byte>)
    requires |cfg.pid| == 4 && Latest(Heard(padi), RELAY_SESSION_ID, d) && !s.exited
    requires var pado := AnswerPadi(cfg, supply.underLimit, padi);
             pado.Some? && var r := OnPado(s, Receive(pado.value, b.atClient1)); r != s && !r.exited
    ensures var pado := AnswerPadi(cfg, supply.underLimit, padi);
            var c := OnPado(s, Receive(pado.value, b.atClient1)).c;
            && c.relayId == Some(d)
            && (MakePadr(c).Some? ==>
                  var p := Receive(MakePadr(c).value, b.atServer2);
                  && Latest(Heard(p), RELAY_SESSION_ID, d)
                  && (PadsFor(cfg, supply, p).Some? ==>
                        Latest(Heard(Receive(PadsFor(cfg, supply, p).value, b.atClient2)), RELAY_SESSION_ID, d)))
  {
    hide *;
    var pado := AnswerPadi(cfg, supply.underLimit, padi).value;
    PadoHeard(cfg, supply.underLimit, padi, b.atClient1);
    var p1 := Receive(pado, b.atClient1);
    OfferEchoesRelay(cfg, padi.source, Heard(padi), d);
    var r := OnPado(s, p1);
    RelayTaken(s, p1, d);
    if MakePadr(r.c).Some? {
      RelayInPadr(r.c, d, b.atServer2);
      var p := Receive(MakePadr(r.c).value, b.atServer2);
      if PadsFor(cfg, supply, p).Some? { RelayInPads(cfg, supply, p, d, b.atClient2); }
    }
  }

  lemma {:induction false} PadoHeard(cfg: Config, underLimit: bool, padi: Packet, stale: Payload)
    requires |cfg.pid| == 4 && AnswerPadi(cfg, underLimit, padi).Some?
    ensures var pado := AnswerPadi(cfg, underLimit, padi).value;
            && |pado.body| <= MAX_PAYLOAD
            && Heard(Receive(pado, stale)) == PadoTags(cfg, padi.source, Heard(padi))
  {
    hide Encode, Heard, PadoTags, LastData;
    HeardWhatWasSent(AnswerPadi(cfg, underLimit, padi).value, stale, PadoTags(cfg, padi.source, Heard(padi)));
  }

  lemma {:induction false} RelayTaken(s: Scan, p: Packet, d: seq<byte>)
    requires !s.exited && Latest(Heard(p), RELAY_SESSION_ID, d) && OnPado(s, p) != s && !OnPado(s, p).exited
    ensures OnPado(s, p).c.relayId == Some(d)
  {
    hide Heard, Latest, OnPado, Seen, Heeded, Faulty, Absent;
    OnPadoObeys(s, p);
  }

  lemma {:induction false} RelayInPadr(c: Client, d: seq<byte>, stale: Payload)
    requires c.relayId == Some(d) && MakePadr(c).Some?
    ensures |MakePadr(c).value.body| <= MAX_PAYLOAD
    ensures Latest(Heard(Receive(MakePadr(c).value, stale)), RELAY_SESSION_ID, d)
  {
    hide Encode, Heard, PadrTags, Latest;
    HeardWhatWasSent(MakePadr(c).value, stale, PadrTags(c));
    PadrTagsAre(c);
    OnlyOne(PadrTags(c), RELAY_SESSION_ID, d);
  }

  lemma {:induction false} RelayInPads(cfg: Config, supply: Supply, p: Packet, d: seq<byte>, stale: Payload)
    requires |cfg.pid| == 4 && PadsFor(cfg, supply, p).Some? && Latest(Heard(p), RELAY_SESSION_ID, d)
    ensures |PadsFor(cfg, supply, p).value.body| <= MAX_PAYLOAD
    ensures Latest(Heard(Receive(PadsFor(cfg, supply, p).value, stale)), RELAY_SESSION_ID, d)
  {
    hide Encode, Heard, PadsTags, Latest, LastData, JudgePadr;
    var v := JudgePadr(cfg, supply.underLimit, p);
    JudgedBy(cfg, supply.underLimit, p);
    var tags := PadsTags(cfg, v.service, Heard(p));
    HeardWhatWasSent(PadsFor(cfg, supply, p).value, stale, tags);
    ConfirmationCarries(cfg, Heard(p), v.service);
    LastIsLatest(Heard(p), RELAY_SESSION_ID);
    assert forall e :: Latest(Heard(p), RELAY_SESSION_ID, e) <==> e == d;
    OnlyOne(tags, RELAY_SESSION_ID, d);
  }
}
