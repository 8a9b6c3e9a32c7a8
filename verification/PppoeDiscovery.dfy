/** The four discovery packets of sections 5.1 to 5.4 of RFC 2516, as the client and the server build
    and judge them, and the whole exchange composed end to end. */
module PppoeDiscovery {
  import opened Bytes
  import opened SessionPool
  import opened Options
  import opened PppoeTags
  import Md5Spec

  const COOKIE_LEN := 20
  const BROADCAST: Mac := [255, 255, 255, 255, 255, 255]

  /** Names no longer than the buffers they are copied to. */
  type Name = s: seq<byte> | |s| <= PAYLOAD_SIZE witness []

  /** What goes over the wire: a header and only the bytes the length field covers. */
  datatype Frame = Frame(dest: Mac, source: Mac, code: nat, session: nat, body: seq<byte>)

  /** A frame arrives in a buffer whose remaining bytes are left over from earlier use. */
  function Receive(f: Frame, stale: Payload): Packet
    requires |f.body| <= MAX_PAYLOAD
  {
    Packet(f.dest, f.source, 1, 1, f.code, f.session, |f.body|, f.body + stale[|f.body|..])
  }

  /** The tags parsePacket passes to its callback. */
  function Heard(p: Packet): seq<Tag> {
    ParseIsSafe(p);
    TagsAt(p.payload, Parse(p).slices)
  }

  lemma {:induction false} HeardWhatWasSent(f: Frame, stale: Payload, tags: seq<Tag>)
    requires AllEncodable(tags) && f.body == Encode(tags) && |f.body| <= MAX_PAYLOAD
    ensures Heard(Receive(f, stale)) == tags
  {
    var p := Receive(f, stale);
    assert p.payload[..p.length] == f.body;
    TagRoundTrip(p, tags);
  }

  /** The callbacks copy each tag they know, so the last of a kind stays. */
  function LastData(tags: seq<Tag>, kind: nat): Option<seq<byte>> {
    if tags == [] then None
    else if tags[|tags| - 1].kind == kind then Some(tags[|tags| - 1].data)
    else LastData(tags[..|tags| - 1], kind)
  }

  function OptionalTag(kind: nat, data: Option<seq<byte>>): seq<Tag> {
    match data case None => [] case Some(d) => [Tag(kind, d)]
  }

  predicate NotUnicast(m: Mac) {
    m[0] % 2 == 1
  }

  /** CHECK_ROOM stops a packet that would not fit; the checks along the way only ask for less. */
  function Send(dest: Mac, source: Mac, code: nat, session: nat, tags: seq<Tag>): Option<Frame> {
    if AllEncodable(tags) && |Encode(tags)| <= MAX_PAYLOAD
    then Some(Frame(dest, source, code, session, Encode(tags)))
    else None
  }

  // ----- server

  datatype Config = Config(mac: Mac, acName: Name, services: seq<Name>, seed: seq<byte>, pid: seq<byte>)

  function ToBits(s: seq<byte>): (t: seq<bv8>)
    ensures |t| == |s|
  {
    seq(|s|, i requires 0 <= i < |s| => s[i] as bv8)
  }

  function FromBits(s: seq<bv8>): (t: seq<byte>)
    ensures |t| == |s|
  {
    seq(|s|, i requires 0 <= i < |s| => s[i] as int)
  }

  /** genCookie: the MD5 of both addresses and the seed, then the server's process id. */
  function Cookie(cfg: Config, peer: Mac): (c: seq<byte>)
    requires |cfg.pid| == 4
    ensures |c| == COOKIE_LEN
  {
    FromBits(Md5Spec.Digest(ToBits(peer) + ToBits(cfg.mac) + ToBits(cfg.seed))) + cfg.pid
  }

  function ServiceTags(names: seq<Name>): seq<Tag> {
    if names == [] then [] else [Tag(SERVICE_NAME, names[0])] + ServiceTags(names[1..])
  }

  /** The names a PADO advertises: a single empty one when none is configured. */
  function Offered(cfg: Config): (names: seq<Name>)
    ensures names != []
  {
    if cfg.services == [] then [[]] else cfg.services
  }

  predicate WantsOffered(cfg: Config, wanted: Option<seq<byte>>) {
    wanted.None? || |wanted.value| == 0 || wanted.value in cfg.services
  }

  function PadoTags(cfg: Config, peer: Mac, heard: seq<Tag>): seq<Tag>
    requires |cfg.pid| == 4
  {
    [Tag(AC_NAME, cfg.acName)] + ServiceTags(Offered(cfg)) + [Tag(AC_COOKIE, Cookie(cfg, peer))]
    + OptionalTag(RELAY_SESSION_ID, LastData(heard, RELAY_SESSION_ID))
    + OptionalTag(HOST_UNIQ, LastData(heard, HOST_UNIQ))
  }

  /** processPADI */
  function AnswerPadi(cfg: Config, underLimit: bool, p: Packet): Option<Frame>
    requires |cfg.pid| == 4
  {
    if NotUnicast(p.source) || !underLimit then None
    else if !WantsOffered(cfg, LastData(Heard(p), SERVICE_NAME)) then None
    else Send(p.source, cfg.mac, PADO, 0, PadoTags(cfg, p.source, Heard(p)))
  }

  datatype Verdict = Drop | Error(tag: nat) | Accept(service: seq<byte>)

  /** The checks of processPADR before a slot is looked for. */
  function JudgePadr(cfg: Config, underLimit: bool, p: Packet): Verdict
    requires |cfg.pid| == 4
  {
    var heard := Heard(p);
    var cookie, service := LastData(heard, AC_COOKIE), LastData(heard, SERVICE_NAME);
    if p.dest != cfg.mac || NotUnicast(p.source) || !underLimit then Drop
    else if cookie.None? || |cookie.value| != COOKIE_LEN || cookie.value != Cookie(cfg, p.source) then Drop
    else if service.None? then Error(SERVICE_NAME_ERROR)
    else if |service.value| != 0 && service.value !in cfg.services then Error(SERVICE_NAME_ERROR)
    else Accept(service.value)
  }

  /** The service name echoed in the PADS: the first configured one stands in for an empty request. */
  function EchoedService(cfg: Config, service: seq<byte>): seq<byte> {
    if |service| == 0 && cfg.services != [] then cfg.services[0] else service
  }

  function PadsTags(cfg: Config, service: seq<byte>, heard: seq<Tag>): seq<Tag> {
    [Tag(SERVICE_NAME, EchoedService(cfg, service))]
    + OptionalTag(RELAY_SESSION_ID, LastData(heard, RELAY_SESSION_ID))
    + OptionalTag(HOST_UNIQ, LastData(heard, HOST_UNIQ))
  }

  // ----- client

  datatype State = SentPadi | ReceivedPado | SentPadr | Session

  datatype Client = Client(state: State, myEth: Mac, peerEth: Mac, session: nat,
                           serviceName: Option<Name>, acName: Option<Name>,
                           useHostUniq: bool, pid: seq<byte>,
                           cookie: Option<seq<byte>>, relayId: Option<seq<byte>>)

  /** "NO-SERVICE-NAME-NON-RFC-COMPLIANT": asks for no Service-Name tag in the PADI. */
  const OMIT: Name := [78, 79, 45, 83, 69, 82, 86, 73, 67, 69, 45, 78, 65, 77, 69, 45, 78, 79, 78, 45, 82, 70, 67,
                       45, 67, 79, 77, 80, 76, 73, 65, 78, 84]

  function Wanted(c: Client): Name {
    match c.serviceName case None => [] case Some(s) => s
  }

  function HostUniqTags(c: Client): seq<Tag> {
    if c.useHostUniq then [Tag(HOST_UNIQ, c.pid)] else []
  }

  function PadiTags(c: Client): seq<Tag> {
    (if c.serviceName == Some(OMIT) then [] else [Tag(SERVICE_NAME, Wanted(c))]) + HostUniqTags(c)
  }

  /** sendPADI */
  function MakePadi(c: Client): Option<Frame> {
    Send(BROADCAST, c.myEth, PADI, 0, PadiTags(c))
  }

  function PadrTags(c: Client): seq<Tag> {
    [Tag(SERVICE_NAME, Wanted(c))] + HostUniqTags(c)
    + OptionalTag(AC_COOKIE, c.cookie) + OptionalTag(RELAY_SESSION_ID, c.relayId)
  }

  /** sendPADR */
  function MakePadr(c: Client): Option<Frame> {
    Send(c.peerEth, c.myEth, PADR, 0, PadrTags(c))
  }

  /** packetIsForMe */
  predicate ForMe(c: Client, p: Packet) {
    p.dest == c.myEth && (c.useHostUniq ==> Tag(HOST_UNIQ, c.pid) in Heard(p))
  }

  /** PacketCriteria, the connection, and whether an error tag has ended the program. */
  datatype Scan = Scan(c: Client, acOk: bool, serviceOk: bool, seenAc: bool, seenService: bool, exited: bool)

  function StartScan(c: Client): Scan {
    Scan(c, c.acName.None?, c.serviceName.None?, false, false, false)
  }

  /** parsePADOTags */
  function PadoTag(s: Scan, t: Tag): Scan {
    if s.exited then s
    else if t.kind == AC_NAME then
      s.(seenAc := true, acOk := s.acOk || (s.c.acName.Some? && t.data == s.c.acName.value))
    else if t.kind == SERVICE_NAME then
      s.(seenService := true, serviceOk := s.serviceOk || (s.c.serviceName.Some? && t.data == s.c.serviceName.value))
    else if t.kind == AC_COOKIE then s.(c := s.c.(cookie := Some(t.data)))
    else if t.kind == RELAY_SESSION_ID then s.(c := s.c.(relayId := Some(t.data)))
    else if t.kind == SERVICE_NAME_ERROR || t.kind == AC_SYSTEM_ERROR || t.kind == GENERIC_ERROR then s.(exited := true)
    else s
  }

  function ScanPado(s: Scan, tags: seq<Tag>): Scan
    decreases |tags|
  {
    if tags == [] then s else ScanPado(PadoTag(s, tags[0]), tags[1..])
  }

  /** One packet in the loop of waitForPADO. */
  function OnPado(s: Scan, p: Packet): Scan {
    if !ForMe(s.c, p) || p.code != PADO || NotUnicast(p.source) then s
    else
      var r := ScanPado(s, Heard(p));
      if r.exited || !r.seenAc || !r.seenService || !r.acOk || !r.serviceOk then r
      else r.(c := r.c.(peerEth := p.source, state := ReceivedPado))
  }

  /** One packet in the loop of waitForPADS. */
  function OnPads(c: Client, p: Packet): Client {
    if p.source != c.peerEth || !ForMe(c, p) || p.code != PADS then c
    else
      var heard := Heard(p);
      var relayed := match LastData(heard, RELAY_SESSION_ID) case None => c case Some(d) => c.(relayId := Some(d));
      if HasError(heard) then relayed else relayed.(state := Session, session := p.session)
  }

  predicate HasError(tags: seq<Tag>) {
    exists i :: 0 <= i < |tags| && tags[i].kind in {SERVICE_NAME_ERROR, AC_SYSTEM_ERROR, GENERIC_ERROR}
  }

  // ----- the exchange

  /** What the server brings to a PADR: whether the peer may have one more session, the number of
      the slot that would be taken, and whether fork succeeds. */
  datatype Supply = Supply(underLimit: bool, slot: Option<nat>, forked: bool)

  function PadsFor(cfg: Config, supply: Supply, p: Packet): Option<Frame>
    requires |cfg.pid| == 4
  {
    var v := JudgePadr(cfg, supply.underLimit, p);
    if v.Accept? && supply.slot.Some? && supply.forked
    then Send(p.source, cfg.mac, PADS, supply.slot.value, PadsTags(cfg, v.service, Heard(p)))
    else None
  }

  datatype Buffers = Buffers(atServer1: Payload, atClient1: Payload, atServer2: Payload, atClient2: Payload)

  function SecondHalf(cfg: Config, c: Client, supply: Supply, b: Buffers): Client
    requires |cfg.pid| == 4
  {
    match MakePadr(c)
    case None => c.(state := SentPadr)
    case Some(padr) =>
      match PadsFor(cfg, supply, Receive(padr, b.atServer2))
      case None => c.(state := SentPadr)
      case Some(pads) => OnPads(c.(state := SentPadr), Receive(pads, b.atClient2))
  }

  /** One attempt at discovery against one server. */
  function Handshake(cfg: Config, c: Client, supply: Supply, b: Buffers): Client
    requires |cfg.pid| == 4
  {
    match MakePadi(c)
    case None => c
    case Some(padi) =>
      match AnswerPadi(cfg, supply.underLimit, Receive(padi, b.atServer1))
      case None => c
      case Some(pado) =>
        var s := OnPado(StartScan(c), Receive(pado, b.atClient1));
        if s.exited || s.c.state != ReceivedPado then s.c else SecondHalf(cfg, s.c, supply, b)
  }

  // ----- proofs: what each side hears

  lemma {:induction false} LastDataConcat(a: seq<Tag>, b: seq<Tag>, kind: nat)
    ensures LastData(a + b, kind) == if LastData(b, kind).Some? then LastData(b, kind) else LastData(a, kind)
    decreases |b|
  {
    if b == [] {
      assert a + b == a;
    } else {
      assert (a + b)[..|a + b| - 1] == a + b[..|b| - 1];
      LastDataConcat(a, b[..|b| - 1], kind);
    }
  }

  lemma {:induction false} LastDataOne(t: Tag, kind: nat)
    ensures LastData([t], kind) == if t.kind == kind then Some(t.data) else None
  {
    assert [t][..0] == [];
  }

  lemma {:induction false} HostUniqHeard(c: Client, kind: nat)
    ensures LastData(HostUniqTags(c), kind) == if c.useHostUniq && kind == HOST_UNIQ then Some(c.pid) else None
  {
    LastDataOne(Tag(HOST_UNIQ, c.pid), kind);
  }

  lemma {:induction false} PadiHeardAt(c: Client, kind: nat)
    ensures LastData(PadiTags(c), kind)
            == if kind == HOST_UNIQ && c.useHostUniq then Some(c.pid)
               else if kind == SERVICE_NAME && c.serviceName != Some(OMIT) then Some(Wanted(c))
               else None
  {
    hide HostUniqTags, Wanted;
    var svc := if c.serviceName == Some(OMIT) then [] else [Tag(SERVICE_NAME, Wanted(c))];
    assert PadiTags(c) == svc + HostUniqTags(c);
    LastDataConcat(svc, HostUniqTags(c), kind);
    HostUniqHeard(c, kind);
    LastDataOne(Tag(SERVICE_NAME, Wanted(c)), kind);
  }

  lemma {:induction false} PadiHeard(c: Client)
    ensures LastData(PadiTags(c), SERVICE_NAME) == if c.serviceName == Some(OMIT) then None else Some(Wanted(c))
    ensures LastData(PadiTags(c), RELAY_SESSION_ID) == None
    ensures OptionalTag(HOST_UNIQ, LastData(PadiTags(c), HOST_UNIQ)) == HostUniqTags(c)
  {
    hide LastData, PadiTags, Wanted;
    PadiHeardAt(c, SERVICE_NAME);
    PadiHeardAt(c, RELAY_SESSION_ID);
    PadiHeardAt(c, HOST_UNIQ);
  }

  lemma {:induction false} PadrHeard(c: Client, kind: nat)
    requires c.relayId.None?
    ensures LastData(PadrTags(c), kind) ==
            if kind == AC_COOKIE && c.cookie.Some? then c.cookie
            else if kind == HOST_UNIQ && c.useHostUniq then Some(c.pid)
            else if kind == SERVICE_NAME then Some(Wanted(c))
            else None
  {
    var svc, hu, ck := [Tag(SERVICE_NAME, Wanted(c))], HostUniqTags(c), OptionalTag(AC_COOKIE, c.cookie);
    assert PadrTags(c) == svc + hu + ck;
    LastDataConcat(svc + hu, ck, kind);
    LastDataConcat(svc, hu, kind);
    HostUniqHeard(c, kind);
    LastDataOne(svc[0], kind);
    if c.cookie.Some? { LastDataOne(ck[0], kind); }
  }

  // ----- proofs: sizes

  lemma {:induction false} EncodeOne(t: Tag)
    requires Encodable(t)
    ensures AllEncodable([t]) && |Encode([t])| == TAG_HDR + |t.data|
  {
    assert [t][1..] == [];
  }

  lemma {:induction false} ServiceTagsSize(names: seq<Name>)
    ensures AllEncodable(ServiceTags(names))
    ensures forall name :: name in names ==> TAG_HDR + |name| <= |Encode(ServiceTags(names))|
    decreases |names|
  {
    if names != [] {
      ServiceTagsSize(names[1..]);
      var tags := ServiceTags(names);
      assert tags[1..] == ServiceTags(names[1..]);
      assert forall i :: 0 < i < |tags| ==> tags[i] == tags[1..][i - 1];
      forall name | name in names ensures TAG_HDR + |name| <= |Encode(tags)| {
        if name != names[0] { assert name in names[1..]; }
      }
    }
  }

  lemma {:induction false} PadoEncodable(cfg: Config, c: Client)
    requires |cfg.pid| == 4 && |c.pid| == 4
    ensures AllEncodable(OfferTags(cfg, c))
    ensures forall name :: name in Offered(cfg) ==>
              TAG_HDR + |name| + |Encode(HostUniqTags(c))| <= |Encode(OfferTags(cfg, c))|
  {
    hide Encode, Cookie;
    var ac, sv := [Tag(AC_NAME, cfg.acName)], ServiceTags(Offered(cfg));
    var ck, hu := [Tag(AC_COOKIE, Cookie(cfg, c.myEth))], HostUniqTags(c);
    ServiceTagsSize(Offered(cfg));
    EncodeConcat(ac, sv);
    EncodeConcat(ac + sv, ck);
    EncodeConcat(ac + sv + ck, hu);
  }

  /** The PADO that answers this client's PADI. */
  function OfferTags(cfg: Config, c: Client): seq<Tag>
    requires |cfg.pid| == 4
  {
    [Tag(AC_NAME, cfg.acName)] + ServiceTags(Offered(cfg)) + [Tag(AC_COOKIE, Cookie(cfg, c.myEth))] + HostUniqTags(c)
  }

  /** The PADR with which this client takes up the offer. */
  function RequestTags(cfg: Config, c: Client): seq<Tag>
    requires |cfg.pid| == 4
  {
    [Tag(SERVICE_NAME, Wanted(c))] + HostUniqTags(c) + [Tag(AC_COOKIE, Cookie(cfg, c.myEth))]
  }

  lemma {:induction false} RequestSize(cfg: Config, c: Client)
    requires |cfg.pid| == 4 && |c.pid| == 4
    ensures AllEncodable(RequestTags(cfg, c)) && AllEncodable(PadiTags(c))
    ensures |Encode(PadiTags(c))| <= |Encode(RequestTags(cfg, c))|
  {
    hide Cookie, Encode;
    var svc, hu, ck := [Tag(SERVICE_NAME, Wanted(c))], HostUniqTags(c), [Tag(AC_COOKIE, Cookie(cfg, c.myEth))];
    EncodeConcat(svc, hu);
    EncodeConcat(svc + hu, ck);
    assert PadiTags(c) == svc + hu || PadiTags(c) == [] + hu == hu;
  }

  // ----- proofs: what the client makes of the offer

  lemma {:induction false} ScanConcat(s: Scan, a: seq<Tag>, b: seq<Tag>)
    ensures ScanPado(s, a + b) == ScanPado(ScanPado(s, a), b)
    decreases |a|
  {
    hide PadoTag;
    if a == [] {
      assert a + b == b;
    } else {
      assert (a + b)[1..] == a[1..] + b;
      ScanConcat(PadoTag(s, a[0]), a[1..], b);
    }
  }

  lemma {:induction false} ScanOne(s: Scan, t: Tag)
    ensures ScanPado(s, [t]) == PadoTag(s, t)
  {
    hide PadoTag;
    assert [t][1..] == [];
  }

  lemma {:induction false} ScanServices(s: Scan, names: seq<Name>)
    requires !s.exited
    ensures ScanPado(s, ServiceTags(names)) ==
            s.(seenService := s.seenService || names != [],
               serviceOk := s.serviceOk || (s.c.serviceName.Some? && s.c.serviceName.value in names))
    decreases |names|
  {
    if names != [] {
      var t := Tag(SERVICE_NAME, names[0]);
      assert ServiceTags(names)[1..] == ServiceTags(names[1..]);
      ScanServices(PadoTag(s, t), names[1..]);
      assert s.c.serviceName.Some? ==> (s.c.serviceName.value in names <==>
        s.c.serviceName.value == names[0] || s.c.serviceName.value in names[1..]);
    }
  }

  lemma {:induction false} ScanHostUniq(s: Scan, c: Client)
    ensures ScanPado(s, HostUniqTags(c)) == s
  {
    if c.useHostUniq { ScanOne(s, Tag(HOST_UNIQ, c.pid)); }
  }

  predicate NamesMatch(cfg: Config, c: Client) {
    && (c.acName.Some? ==> c.acName.value == cfg.acName)
    && (c.serviceName.Some? ==> c.serviceName.value in Offered(cfg))
  }

  lemma {:induction false} ScanOffer(cfg: Config, c: Client)
    requires |cfg.pid| == 4
    ensures var s := ScanPado(StartScan(c), OfferTags(cfg, c));
            && s.c == c.(cookie := Some(Cookie(cfg, c.myEth)))
            && s.seenAc && s.seenService && !s.exited
            && (s.acOk && s.serviceOk <==> NamesMatch(cfg, c))
  {
    hide Cookie;
    var ac, sv := Tag(AC_NAME, cfg.acName), ServiceTags(Offered(cfg));
    var ck, hu := Tag(AC_COOKIE, Cookie(cfg, c.myEth)), HostUniqTags(c);
    var s0 := StartScan(c);
    ScanConcat(s0, [ac] + sv + [ck], hu);
    ScanConcat(s0, [ac] + sv, [ck]);
    ScanConcat(s0, [ac], sv);
    ScanOne(s0, ac);
    var s1 := PadoTag(s0, ac);
    ScanServices(s1, Offered(cfg));
    var s2 := ScanPado(s1, sv);
    ScanOne(s2, ck);
    ScanHostUniq(PadoTag(s2, ck), c);
  }

  // ----- proofs: the exchange

  predicate Fits(tags: seq<Tag>) {
    AllEncodable(tags) && |Encode(tags)| <= MAX_PAYLOAD
  }

  /** The server's answer to this client's PADI. */
  lemma {:induction false} AnswerToPadi(cfg: Config, c: Client, underLimit: bool, stale: Payload)
    requires |cfg.pid| == 4 && |c.pid| == 4 && Fits(PadiTags(c))
    ensures var a := AnswerPadi(cfg, underLimit, Receive(MakePadi(c).value, stale));
            && (a.Some? ==> a == Send(c.myEth, cfg.mac, PADO, 0, OfferTags(cfg, c)))
            && (NamesMatch(cfg, c) && !NotUnicast(c.myEth) && underLimit ==>
                  a == Send(c.myEth, cfg.mac, PADO, 0, OfferTags(cfg, c)))
            && (NotUnicast(c.myEth) || !underLimit ==> a.None?)
  {
    hide Cookie, Encode, LastData, Heard;
    var padi := MakePadi(c).value;
    HeardWhatWasSent(padi, stale, PadiTags(c));
    PadiHeard(c);
    assert PadoTags(cfg, c.myEth, PadiTags(c)) == OfferTags(cfg, c);
  }

  /** The client's reaction to the offer. */
  lemma {:induction false} ReactionToOffer(cfg: Config, c: Client, stale: Payload)
    requires |cfg.pid| == 4 && |c.pid| == 4 && Fits(OfferTags(cfg, c)) && c.state == SentPadi
    ensures var pado := Send(c.myEth, cfg.mac, PADO, 0, OfferTags(cfg, c)).value;
            var s := OnPado(StartScan(c), Receive(pado, stale));
            && !s.exited
            && (s.c.state == ReceivedPado <==> NamesMatch(cfg, c) && !NotUnicast(cfg.mac))
            && (s.c.state != ReceivedPado ==> s.c.state == SentPadi)
            && (s.c.state == ReceivedPado ==> s.c == Informed(cfg, c))
  {
    hide Cookie, Encode, LastData, Heard, ScanPado;
    var pado := Send(c.myEth, cfg.mac, PADO, 0, OfferTags(cfg, c)).value;
    HeardWhatWasSent(pado, stale, OfferTags(cfg, c));
    if c.useHostUniq {
      var tags := OfferTags(cfg, c);
      assert tags[|tags| - 1] == Tag(HOST_UNIQ, c.pid);
    }
    ScanOffer(cfg, c);
  }

  /** The client after a good offer. */
  function Informed(cfg: Config, c: Client): Client
    requires |cfg.pid| == 4
  {
    c.(cookie := Some(Cookie(cfg, c.myEth)), peerEth := cfg.mac, state := ReceivedPado)
  }

  lemma {:induction false} RequestAccepted(cfg: Config, c: Client, underLimit: bool, stale: Payload)
    requires |cfg.pid| == 4 && |c.pid| == 4 && c.relayId.None?
    requires Fits(RequestTags(cfg, c)) && NamesMatch(cfg, c) && !NotUnicast(c.myEth)
    ensures MakePadr(Informed(cfg, c)) == Send(cfg.mac, c.myEth, PADR, 0, RequestTags(cfg, c))
    ensures var p := Receive(MakePadr(Informed(cfg, c)).value, stale);
            && JudgePadr(cfg, underLimit, p) == (if underLimit then Accept(Wanted(c)) else Drop)
            && PadsTags(cfg, Wanted(c), Heard(p))
               == [Tag(SERVICE_NAME, EchoedService(cfg, Wanted(c)))] + HostUniqTags(c)
  {
    hide Cookie, Encode, LastData, Heard;
    var c1 := Informed(cfg, c);
    assert PadrTags(c1) == RequestTags(cfg, c) + [] == RequestTags(cfg, c);
    var padr := MakePadr(c1).value;
    HeardWhatWasSent(padr, stale, RequestTags(cfg, c));
    PadrHeard(c1, AC_COOKIE);
    PadrHeard(c1, SERVICE_NAME);
    PadrHeard(c1, RELAY_SESSION_ID);
    PadrHeard(c1, HOST_UNIQ);
  }

  lemma {:induction false} EchoIsOffered(cfg: Config, c: Client)
    requires NamesMatch(cfg, c)
    ensures EchoedService(cfg, Wanted(c)) in Offered(cfg)
  {}

  lemma {:induction false} ConfirmationAccepted(cfg: Config, c: Client, id: nat, stale: Payload)
    requires |cfg.pid| == 4 && |c.pid| == 4 && NamesMatch(cfg, c) && Fits(OfferTags(cfg, c))
    ensures var tags := [Tag(SERVICE_NAME, EchoedService(cfg, Wanted(c)))] + HostUniqTags(c);
            var pads := Send(c.myEth, cfg.mac, PADS, id, tags);
            && pads.Some?
            && OnPads(Informed(cfg, c).(state := SentPadr), Receive(pads.value, stale))
               == Informed(cfg, c).(state := Session, session := id)
  {
    hide Cookie, Encode, LastData, Heard;
    var svc, hu := Tag(SERVICE_NAME, EchoedService(cfg, Wanted(c))), HostUniqTags(c);
    var tags := [svc] + hu;
    EchoIsOffered(cfg, c);
    PadoEncodable(cfg, c);
    EncodeOne(svc);
    EncodeConcat([svc], hu);
    var pads := Send(c.myEth, cfg.mac, PADS, id, tags);
    HeardWhatWasSent(pads.value, stale, tags);
    LastDataConcat([svc], hu, RELAY_SESSION_ID);
    LastDataOne(svc, RELAY_SESSION_ID);
    HostUniqHeard(c, RELAY_SESSION_ID);
    if c.useHostUniq { assert tags[1] == Tag(HOST_UNIQ, c.pid); }
  }

  /** Everything that has to be right before the first packet is sent. */
  ghost predicate Ready(cfg: Config, c: Client, supply: Supply)
    requires |cfg.pid| == 4
  {
    && !NotUnicast(c.myEth) && !NotUnicast(cfg.mac)
    && NamesMatch(cfg, c)
    && Fits(OfferTags(cfg, c)) && Fits(RequestTags(cfg, c))
    && supply.underLimit && supply.slot.Some? && supply.forked
  }

  lemma {:induction false} SecondHalfSucceeds(cfg: Config, c: Client, supply: Supply, b: Buffers)
    requires |cfg.pid| == 4 && |c.pid| == 4 && c.relayId.None?
    requires NamesMatch(cfg, c) && !NotUnicast(c.myEth) && Fits(OfferTags(cfg, c)) && supply.underLimit
    ensures var r := SecondHalf(cfg, Informed(cfg, c), supply, b);
            if Fits(RequestTags(cfg, c)) && supply.slot.Some? && supply.forked
            then r == Informed(cfg, c).(state := Session, session := supply.slot.value)
            else r.state == SentPadr
  {
    hide Cookie, Encode, Heard, JudgePadr, PadsTags, OnPads;
    var c1 := Informed(cfg, c);
    assert PadrTags(c1) == RequestTags(cfg, c) + [] == RequestTags(cfg, c);
    if Fits(RequestTags(cfg, c)) {
      RequestAccepted(cfg, c, supply.underLimit, b.atServer2);
      if supply.slot.Some? { ConfirmationAccepted(cfg, c, supply.slot.value, b.atClient2); }
    }
  }

  /** End to end: the client reaches its session state exactly when addresses are unicast, names
      match, the packets fit, the peer is under its limit, a slot is free and fork succeeds; and
      then it holds that slot's number and the server's address. */
  lemma {:induction false} HandshakeSucceedsExactlyWhenReady(cfg: Config, c: Client, supply: Supply, b: Buffers)
    requires |cfg.pid| == 4 && |c.pid| == 4
    requires c.state == SentPadi && c.cookie.None? && c.relayId.None?
    ensures Handshake(cfg, c, supply, b).state == Session <==> Ready(cfg, c, supply)
    ensures Ready(cfg, c, supply) ==>
              Handshake(cfg, c, supply, b) == Informed(cfg, c).(state := Session, session := supply.slot.value)
  {
    hide Cookie, Encode, AnswerPadi, OnPado, PadiTags, OfferTags, RequestTags, SecondHalf;
    RequestSize(cfg, c);
    PadoEncodable(cfg, c);
    if Fits(PadiTags(c)) {
      AnswerToPadi(cfg, c, supply.underLimit, b.atServer1);
      if Fits(OfferTags(cfg, c)) {
        ReactionToOffer(cfg, c, b.atClient1);
        if NamesMatch(cfg, c) && !NotUnicast(cfg.mac) && !NotUnicast(c.myEth) && supply.underLimit {
          SecondHalfSucceeds(cfg, c, supply, b);
        }
      }
    }
  }

  // ----- the PADS needs no room check

  function TagsSize(tags: seq<Tag>): nat {
    if tags == [] then 0 else TagsSize(tags[..|tags| - 1]) + TAG_HDR + |tags[|tags| - 1].data|
  }

  function DataSize(d: Option<seq<byte>>): nat {
    match d case None => 0 case Some(x) => TAG_HDR + |x|
  }

  /** The tags kept from one packet are disjoint parts of it. */
  lemma {:induction false} KeptTagsFit(tags: seq<Tag>)
    ensures DataSize(LastData(tags, SERVICE_NAME)) + DataSize(LastData(tags, RELAY_SESSION_ID))
            + DataSize(LastData(tags, HOST_UNIQ)) + DataSize(LastData(tags, AC_COOKIE)) <= TagsSize(tags)
    decreases |tags|
  {
    if tags != [] {
      KeptTagsFit(tags[..|tags| - 1]);
      KeptTagsSmaller(tags);
    }
  }

  lemma {:induction false} KeptTagsSmaller(tags: seq<Tag>)
    requires tags != []
    ensures forall kind :: tags[|tags| - 1].kind != kind ==> LastData(tags, kind) == LastData(tags[..|tags| - 1], kind)
  {}

  lemma {:induction false} HeardSize(p: Payload, slices: seq<Slice>)
    requires Inside(slices)
    ensures TagsSize(TagsAt(p, slices)) == TotalSize(slices)
    decreases |slices|
  {
    if slices != [] {
      HeardSize(p, slices[1..]);
      TagsSizeConcat([SliceTag(p, slices[0])], TagsAt(p, slices[1..]));
      assert [SliceTag(p, slices[0])][..0] == [];
    }
  }

  lemma {:induction false} TagsSizeConcat(a: seq<Tag>, b: seq<Tag>)
    ensures TagsSize(a + b) == TagsSize(a) + TagsSize(b)
    decreases |b|
  {
    if b == [] {
      assert a + b == a;
    } else {
      assert (a + b)[..|a + b| - 1] == a + b[..|b| - 1];
      TagsSizeConcat(a, b[..|b| - 1]);
    }
  }

  lemma {:induction false} EncodedSize(tags: seq<Tag>)
    requires AllEncodable(tags)
    ensures |Encode(tags)| == TagsSize(tags)
    decreases |tags|
  {
    if tags != [] {
      EncodedSize(tags[1..]);
      TagsSizeConcat([tags[0]], tags[1..]);
      assert [tags[0]] + tags[1..] == tags && [tags[0]][..0] == [];
    }
  }

  lemma {:induction false} PadsSize(cfg: Config, service: seq<byte>, heard: seq<Tag>)
    ensures TagsSize(PadsTags(cfg, service, heard)) ==
            TAG_HDR + |EchoedService(cfg, service)|
            + DataSize(LastData(heard, RELAY_SESSION_ID)) + DataSize(LastData(heard, HOST_UNIQ))
  {
    var sv := Tag(SERVICE_NAME, EchoedService(cfg, service));
    var ry := OptionalTag(RELAY_SESSION_ID, LastData(heard, RELAY_SESSION_ID));
    var hu := OptionalTag(HOST_UNIQ, LastData(heard, HOST_UNIQ));
    TagsSizeConcat([sv] + ry, hu);
    TagsSizeConcat([sv], ry);
    OptionalSize(RELAY_SESSION_ID, LastData(heard, RELAY_SESSION_ID));
    OptionalSize(HOST_UNIQ, LastData(heard, HOST_UNIQ));
    assert [sv][..0] == [];
  }

  /** An accepted PADR leaves room for the PADS it is answered with, the cookie's 24 bytes to spare,
      unless an empty request is answered with the first configured service. */
  lemma {:induction false} PadsNeedsNoRoomCheck(cfg: Config, underLimit: bool, p: Packet)
    requires |cfg.pid| == 4 && JudgePadr(cfg, underLimit, p).Accept?
    ensures var v := JudgePadr(cfg, underLimit, p);
            var size := TagsSize(PadsTags(cfg, v.service, Heard(p)));
            if |v.service| != 0 || cfg.services == []
            then size <= p.length - (TAG_HDR + COOKIE_LEN) <= MAX_PAYLOAD - 24
            else size <= p.length - (TAG_HDR + COOKIE_LEN) + |cfg.services[0]|
  {
    hide Cookie;
    var heard := Heard(p);
    ParseIsSafe(p);
    HeardSize(p.payload, Parse(p).slices);
    KeptTagsFit(heard);
    PadsSize(cfg, JudgePadr(cfg, underLimit, p).service, heard);
    HeardOnlyReadable(p);
  }

  /** A PADR with an empty Service-Name, the right cookie and a relay id of n bytes. */
  function RelayedRequest(cfg: Config, peer: Mac, n: nat): seq<Tag>
    requires |cfg.pid| == 4
  {
    [Tag(SERVICE_NAME, []), Tag(AC_COOKIE, Cookie(cfg, peer)), Tag(RELAY_SESSION_ID, seq(n, i => 0))]
  }

  lemma {:induction false} RelayedHeard(cfg: Config, peer: Mac, n: nat)
    requires |cfg.pid| == 4 && n < 0x1_0000
    ensures var tags := RelayedRequest(cfg, peer, n);
            && AllEncodable(tags) && TagsSize(tags) == 32 + n
            && LastData(tags, SERVICE_NAME) == Some([]) && LastData(tags, HOST_UNIQ) == None
            && LastData(tags, AC_COOKIE) == Some(Cookie(cfg, peer))
            && LastData(tags, RELAY_SESSION_ID).Some? && |LastData(tags, RELAY_SESSION_ID).value| == n
  {
    hide Cookie;
    var tags := RelayedRequest(cfg, peer, n);
    var t2, t1 := tags[..2], tags[..1];
    assert t2[..1] == t1 && t1[..0] == [];
    assert TagsSize(t1) == TagsSize(t1[..0]) + TAG_HDR + 0 == 4;
    assert TagsSize(t2) == TagsSize(t2[..1]) + TAG_HDR + COOKIE_LEN == 28;
    assert TagsSize(tags) == TagsSize(tags[..2]) + TAG_HDR + n;
    forall kind: nat ensures LastData(t1, kind) == if kind == SERVICE_NAME then Some([]) else None {}
    forall kind: nat
      ensures LastData(t2, kind) == if kind == AC_COOKIE then Some(Cookie(cfg, peer)) else LastData(t1, kind) {}
  }

  /** In that case the PADS can be too long: with a 1400-byte relay id it takes 1408 bytes and the first
      configured name, more than 1494 from a name of 87 bytes on and more than 1500 from 93. */
  lemma {:induction false} DefaultServiceCanOutgrowPads(cfg: Config, peer: Mac, stale: Payload)
    requires |cfg.pid| == 4 && cfg.services != [] && !NotUnicast(peer)
    ensures var tags := RelayedRequest(cfg, peer, 1400);
            Fits(tags) &&
            var p := Receive(Frame(cfg.mac, peer, PADR, 0, Encode(tags)), stale);
            JudgePadr(cfg, true, p) == Accept([])
            && TagsSize(PadsTags(cfg, [], Heard(p))) == 1408 + |cfg.services[0]|
  {
    hide Cookie, Encode, LastData, Heard, TagsSize, RelayedRequest;
    var tags := RelayedRequest(cfg, peer, 1400);
    RelayedHeard(cfg, peer, 1400);
    EncodedSize(tags);
    HeardWhatWasSent(Frame(cfg.mac, peer, PADR, 0, Encode(tags)), stale, tags);
    PadsSize(cfg, [], tags);
  }

  lemma {:induction false} HeardOnlyReadable(p: Packet)
    requires Heard(p) != []
    ensures p.length <= MAX_PAYLOAD
  {}

  lemma {:induction false} OptionalSize(kind: nat, d: Option<seq<byte>>)
    ensures TagsSize(OptionalTag(kind, d)) == DataSize(d)
  {
    if d.Some? { assert [Tag(kind, d.value)][..0] == []; }
  }

  // ----- the room condition in numbers

  function NamesSize(names: seq<Name>): nat {
    if names == [] then 0 else TAG_HDR + |names[0]| + NamesSize(names[1..])
  }

  function HostUniqRoom(c: Client): nat {
    if c.useHostUniq then 8 else 0
  }

  lemma {:induction false} ServiceTagsRoom(names: seq<Name>)
    ensures TagsSize(ServiceTags(names)) == NamesSize(names)
    decreases |names|
  {
    if names != [] {
      ServiceTagsRoom(names[1..]);
      SingleSize(Tag(SERVICE_NAME, names[0]));
      TagsSizeConcat([Tag(SERVICE_NAME, names[0])], ServiceTags(names[1..]));
    }
  }

  lemma {:induction false} SingleSize(t: Tag)
    ensures TagsSize([t]) == TAG_HDR + |t.data|
  {
    assert [t][..0] == [];
  }

  lemma {:induction false} HostUniqRoomIs(c: Client)
    requires |c.pid| == 4
    ensures TagsSize(HostUniqTags(c)) == HostUniqRoom(c)
  {
    if c.useHostUniq { SingleSize(Tag(HOST_UNIQ, c.pid)); }
  }

  /** Both packets that must fit do so exactly when the names are short enough. */
  lemma {:induction false} RoomNeeded(cfg: Config, c: Client)
    requires |cfg.pid| == 4 && |c.pid| == 4
    ensures Fits(OfferTags(cfg, c)) <==> 28 + |cfg.acName| + NamesSize(Offered(cfg)) + HostUniqRoom(c) <= MAX_PAYLOAD
    ensures Fits(RequestTags(cfg, c)) <==> 28 + |Wanted(c)| + HostUniqRoom(c) <= MAX_PAYLOAD
  {
    hide Cookie, Encode, TagsSize, HostUniqTags, ServiceTags, NamesSize, AllEncodable;
    PadoEncodable(cfg, c);
    RequestSize(cfg, c);
    EncodedSize(OfferTags(cfg, c));
    EncodedSize(RequestTags(cfg, c));
    var ac, sv := Tag(AC_NAME, cfg.acName), ServiceTags(Offered(cfg));
    var ck, hu := Tag(AC_COOKIE, Cookie(cfg, c.myEth)), HostUniqTags(c);
    var svc := Tag(SERVICE_NAME, Wanted(c));
    SingleSize(ac);
    SingleSize(ck);
    SingleSize(svc);
    ServiceTagsRoom(Offered(cfg));
    HostUniqRoomIs(c);
    TagsSizeConcat([ac] + sv + [ck], hu);
    TagsSizeConcat([ac] + sv, [ck]);
    TagsSizeConcat([ac], sv);
    TagsSizeConcat([svc] + hu, [ck]);
    TagsSizeConcat([svc], hu);
  }
}
