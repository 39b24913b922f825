/** The Amnezia endpoint of transport/amnezia/endpoint.go: building it from its options, and the
    two-phase start driven by protocol/amnezia/endpoint.go. */
module EndpointStart {
  import opened Common
  import opened IpcText

  datatype Domain = Domain(fqdn: string, port: nat)

  /** `addr` is the printed form of a valid address. */
  datatype AddrPort = AddrPort(addr: string, port: nat)

  datatype PeerConfig = PeerConfig(
    destination: Option<Domain>, endpoint: Option<AddrPort>,
    publicKeyHex: string, preSharedKeyHex: string, allowedIPs: seq<string>, keepalive: nat, reserved: seq<nat>)

  // ---- NewEndpoint ---------------------------------------------------------------

  /** A peer's address as configured: an address, a domain, or neither. */
  datatype Address = Numeric(addr: string, port: nat) | Named(fqdn: string, port: nat) | Neither

  datatype RawPeer = RawPeer(
    address: Address, publicKey: string, preSharedKey: string, allowedIPs: seq<string>, keepalive: nat,
    reserved: seq<nat>)

  /** `decode` is base64 decoding followed by hex encoding. */
  type KeyDecoder = string -> Option<string>

  datatype Refusal =
    | MissingPrivateKey | BadPrivateKey
    | BadPublicKey(peer: nat) | BadPreSharedKey(peer: nat) | MissingAllowedIPs(peer: nat) | BadReserved(peer: nat)
    | BadPrefixes | NoDevice

  datatype Built = Built(ipcConf: string, peers: seq<PeerConfig>) | Refused(why: Refusal)

  /** What is wrong with a peer, the first complaint first. */
  function Complaint(p: RawPeer, i: nat, decode: KeyDecoder): Option<Refusal> {
    if decode(p.publicKey).None? then Some(BadPublicKey(i))
    else if p.preSharedKey != "" && decode(p.preSharedKey).None? then Some(BadPreSharedKey(i))
    else if p.allowedIPs == [] then Some(MissingAllowedIPs(i))
    else if |p.reserved| > 0 && |p.reserved| != 3 then Some(BadReserved(i))
    else None
  }

  /** `config` is what the endpoint keeps of the raw peer. */
  predicate Configures(p: RawPeer, decode: KeyDecoder, config: PeerConfig) {
    && config.allowedIPs == p.allowedIPs && config.keepalive == p.keepalive
    && Some(config.publicKeyHex) == decode(p.publicKey)
    && (if p.preSharedKey == "" then config.preSharedKeyHex == ""
        else Some(config.preSharedKeyHex) == decode(p.preSharedKey))
    && (if p.reserved == [] then config.reserved == [0, 0, 0] else config.reserved == p.reserved)
    && (match p.address
        case Numeric(addr, port) => config.endpoint == Some(AddrPort(addr, port)) && config.destination.None?
        case Named(fqdn, port) => config.endpoint.None? && config.destination == Some(Domain(fqdn, port))
        case Neither => config.endpoint.None? && config.destination.None?)
  }

  method NewPeer(raw: RawPeer, i: nat, decode: KeyDecoder) returns (why: Option<Refusal>, peer: PeerConfig)
    ensures why == Complaint(raw, i, decode)
    ensures why.None? ==> Configures(raw, decode, peer)
    // which complaint, in the order in which the source looks
    ensures var psk := raw.preSharedKey == "" || decode(raw.preSharedKey).Some?;
            why == if decode(raw.publicKey).None? then Some(BadPublicKey(i))
                   else if !psk then Some(BadPreSharedKey(i))
                   else if |raw.allowedIPs| == 0 then Some(MissingAllowedIPs(i))
                   else if |raw.reserved| == 0 || |raw.reserved| == 3 then None
                   else Some(BadReserved(i))
    // what is kept of a peer without one
    ensures why.None? ==>
              && peer.publicKeyHex == decode(raw.publicKey).value
              && peer.preSharedKeyHex == (if raw.preSharedKey == "" then "" else decode(raw.preSharedKey).value)
              && peer.allowedIPs == raw.allowedIPs && peer.keepalive == raw.keepalive
              && peer.reserved == (if raw.reserved == [] then [0, 0, 0] else raw.reserved)
              && peer.endpoint == (if raw.address.Numeric? then Some(AddrPort(raw.address.addr, raw.address.port)) else None)
              && peer.destination == (if raw.address.Named? then Some(Domain(raw.address.fqdn, raw.address.port)) else None)
  {
    peer := PeerConfig(None, None, "", "", raw.allowedIPs, raw.keepalive, [0, 0, 0]);
    if raw.address.Numeric? {
      peer := peer.(endpoint := Some(AddrPort(raw.address.addr, raw.address.port)));
    } else if raw.address.Named? {
      peer := peer.(destination := Some(Domain(raw.address.fqdn, raw.address.port)));
    }
    var publicKey := decode(raw.publicKey);
    if publicKey.None? {
      return Some(BadPublicKey(i)), peer;
    }
    peer := peer.(publicKeyHex := publicKey.value);
    if raw.preSharedKey != "" {
      var preSharedKey := decode(raw.preSharedKey);
      if preSharedKey.None? {
        return Some(BadPreSharedKey(i)), peer;
      }
      peer := peer.(preSharedKeyHex := preSharedKey.value);
    }
    if |raw.allowedIPs| == 0 {
      return Some(MissingAllowedIPs(i)), peer;
    }
    if |raw.reserved| > 0 {
      if |raw.reserved| != 3 {
        return Some(BadReserved(i)), peer;
      }
      peer := peer.(reserved := raw.reserved);
    }
    return None, peer;
  }

  /** No complaint about any peer. */
  ghost predicate Sound(rawPeers: seq<RawPeer>, decode: KeyDecoder) {
    forall i :: 0 <= i < |rawPeers| ==> Complaint(rawPeers[i], i, decode).None?
  }

  /** Peer `i` is the first with a complaint, `why`. */
  predicate ComplainsFirst(rawPeers: seq<RawPeer>, decode: KeyDecoder, i: nat, why: Refusal) {
    && i < |rawPeers| && Complaint(rawPeers[i], i, decode) == Some(why)
    && forall k :: 0 <= k < i ==> Complaint(rawPeers[k], k, decode).None?
  }

  ghost predicate AllConfigured(rawPeers: seq<RawPeer>, decode: KeyDecoder, peers: seq<PeerConfig>) {
    |peers| == |rawPeers| && forall i :: 0 <= i < |rawPeers| ==> Configures(rawPeers[i], decode, peers[i])
  }

  /** The loop over the peers. */
  method NewPeers(rawPeers: seq<RawPeer>, decode: KeyDecoder) returns (why: Option<Refusal>, peers: seq<PeerConfig>)
    ensures why.None? ==> Sound(rawPeers, decode) && AllConfigured(rawPeers, decode, peers)
    ensures why.Some? ==> exists i :: ComplainsFirst(rawPeers, decode, i, why.value)
  {
    peers := [];
    for i := 0 to |rawPeers|
      invariant |peers| == i
      invariant forall k :: 0 <= k < i ==> Complaint(rawPeers[k], k, decode).None? && Configures(rawPeers[k], decode, peers[k])
    {
      var peer;
      why, peer := NewPeer(rawPeers[i], i, decode);
      if why.Some? {
        assert ComplainsFirst(rawPeers, decode, i, why.value);
        return;
      }
      peers := peers + [peer];
    }
    why := None;
  }

  /** `prefixes` and `device` tell whether the set of allowed prefixes and the device can be made. */
  method NewEndpoint(o: Options, rawPeers: seq<RawPeer>, decode: KeyDecoder, prefixes: bool, device: bool)
    returns (r: Built)
    ensures r.Built? <==> o.privateKey != "" && decode(o.privateKey).Some? && Sound(rawPeers, decode) && prefixes && device
    ensures r.Built? ==> AllConfigured(rawPeers, decode, r.peers)
                         && r.ipcConf == Line(Entry("private_key", decode(o.privateKey).value)) + Tail(Settings(Numbers(o)))
    ensures o.privateKey == "" ==> r == Refused(MissingPrivateKey)
    ensures o.privateKey != "" && decode(o.privateKey).None? ==> r == Refused(BadPrivateKey)
    ensures r.Refused? && o.privateKey != "" && decode(o.privateKey).Some? ==>
              if Sound(rawPeers, decode) then r.why == if prefixes then NoDevice else BadPrefixes
              else exists i :: ComplainsFirst(rawPeers, decode, i, r.why)
  {
    if o.privateKey == "" {
      return Refused(MissingPrivateKey);
    }
    var privateKey := decode(o.privateKey);
    if privateKey.None? {
      return Refused(BadPrivateKey);
    }
    var ipcConf := IpcConf(o.(privateKey := privateKey.value));
    var why, peers := NewPeers(rawPeers, decode);
    if why.Some? {
      return Refused(why.value);
    }
    if !prefixes {
      return Refused(BadPrefixes);
    }
    if !device {
      return Refused(NoDevice);
    }
    return Built(ipcConf, peers);
  }

  // ---- resolution ----------------------------------------------------------------

  /** The resolver's answer: an error, or an address that may be the invalid zero address. */
  datatype Answer = Failed | Resolved(addr: Option<string>)

  type Resolver = string -> Answer

  predicate Needs(p: PeerConfig) {
    p.endpoint.None? && p.destination.Some?
  }

  function AnswerFor(p: PeerConfig, resolver: Resolver): Answer
    requires Needs(p)
  {
    resolver(p.destination.value.fqdn)
  }

  /** The peer after its resolution: the answered address with the peer's own port. */
  function Settled(p: PeerConfig, resolver: Resolver): PeerConfig {
    if !Needs(p) || AnswerFor(p, resolver).Failed? then p
    else match AnswerFor(p, resolver).addr
         case None => p
         case Some(addr) => p.(endpoint := Some(AddrPort(addr, p.destination.value.port)))
  }

  predicate SomeNeeds(peers: seq<PeerConfig>) {
    exists i :: 0 <= i < |peers| && Needs(peers[i])
  }

  /** Peer `i` is the first whose resolution fails. */
  predicate FailsFirstAt(peers: seq<PeerConfig>, resolver: Resolver, i: nat) {
    && i < |peers| && Needs(peers[i]) && AnswerFor(peers[i], resolver).Failed?
    && forall k :: 0 <= k < i && Needs(peers[k]) ==> AnswerFor(peers[k], resolver).Resolved?
  }

  /** The peer as its configuration lines show it. */
  function Shown(p: PeerConfig): Peer {
    Peer(p.publicKeyHex, if p.endpoint.Some? then Some(ShowAddrPort(p.endpoint.value)) else None,
         p.preSharedKeyHex, p.allowedIPs, p.keepalive)
  }

  /** `netip.AddrPort.String`: an IPv6 address, the kind with colons, is put in brackets. */
  function ShowAddrPort(a: AddrPort): string {
    if ':' in a.addr then "[" + a.addr + "]:" + Decimal(a.port) else a.addr + ":" + Decimal(a.port)
  }

  function ShownAll(peers: seq<PeerConfig>): seq<Peer> {
    seq(|peers|, i requires 0 <= i < |peers| => Shown(peers[i]))
  }

  /** How the device's own steps go. */
  datatype DeviceResult = DeviceResult(tun: bool, uapi: bool, ipcSet: bool)

  predicate ComesUp(d: DeviceResult, listens: bool) {
    d.tun && (listens ==> d.uapi) && d.ipcSet
  }

  /** What is known of the endpoint outside: `attempts` counts bring-ups begun, `ups` those
      completed, `text` is the last configuration handed to the device. */
  class Endpoint {
    const peers: array<PeerConfig>
    const ipcConf: string
    const listenPort: nat
    var attempts: nat
    var ups: nat
    var text: string

    constructor (peers: array<PeerConfig>, ipcConf: string, listenPort: nat)
      ensures this.peers == peers && this.ipcConf == ipcConf && this.listenPort == listenPort
      ensures attempts == 0 && ups == 0 && text == ""
    {
      this.peers, this.ipcConf, this.listenPort := peers, ipcConf, listenPort;
      attempts, ups, text := 0, 0, "";
    }

    method BringUp(device: DeviceResult) returns (ok: bool)
      modifies this
      ensures attempts == old(attempts) + 1
      ensures ok <==> ComesUp(device, listenPort != 0)
      ensures ok <==> device.tun && (listenPort == 0 || device.uapi) && device.ipcSet
      ensures ups == old(ups) + if ok then 1 else 0
      ensures ok ==> text == ipcConf + Tail(PeersEntries(ShownAll(peers[..])))
    {
      attempts := attempts + 1;
      if !device.tun {
        return false;
      }
      if listenPort != 0 {
        if !device.uapi {
          return false;
        }
      }
      text := AppendPeers(ipcConf, ShownAll(peers[..]));
      if !device.ipcSet {
        return false;
      }
      ups := ups + 1;
      return true;
    }

    method AnyNeeds() returns (any: bool)
      ensures any <==> SomeNeeds(peers[..])
    {
      for i := 0 to peers.Length
        invariant forall k :: 0 <= k < i ==> !Needs(peers[k])
      {
        if Needs(peers[i]) {
          assert Needs(peers[..][i]);
          return true;
        }
      }
      return false;
    }

    /** `Start(false)` before, `Start(true)` after the resolver is available. */
    method Start(resolve: bool, resolver: Resolver, device: DeviceResult) returns (ok: bool)
      modifies this, peers
      ensures var before := old(peers[..]);
              if SomeNeeds(before) == resolve then
                // this is the phase that acts
                if resolve && exists i :: FailsFirstAt(before, resolver, i)
                then !ok && attempts == old(attempts) && ups == old(ups) && text == old(text)
                     && forall i :: FailsFirstAt(before, resolver, i) ==>
                          forall k :: 0 <= k < |before| ==>
                            peers[k] == if k < i then Settled(before[k], resolver) else before[k]
                else
                  && (forall k :: 0 <= k < |before| ==>
                        peers[k] == if resolve then Settled(before[k], resolver) else before[k])
                  && attempts == old(attempts) + 1 && (ok <==> ComesUp(device, listenPort != 0))
                  && ups == old(ups) + (if ok then 1 else 0)
                  && (ok ==> text == ipcConf + Tail(PeersEntries(ShownAll(peers[..]))))
              else ok && peers[..] == before && attempts == old(attempts) && ups == old(ups) && text == old(text)
    {
      var any := AnyNeeds();
      if any {
        if !resolve {
          return true;
        }
        var failed := ResolvePeers(resolver);
        if failed {
          return false;
        }
      } else if resolve {
        return true;
      }
      ok := BringUp(device);
    }

    /** The resolution loop; it stops at the first failure. */
    method ResolvePeers(resolver: Resolver) returns (failed: bool)
      modifies peers
      ensures failed <==> exists i :: FailsFirstAt(old(peers[..]), resolver, i)
      ensures forall i :: FailsFirstAt(old(peers[..]), resolver, i) ==>
                forall k :: 0 <= k < peers.Length ==>
                  peers[k] == if k < i then Settled(old(peers[..])[k], resolver) else old(peers[..])[k]
      ensures !failed ==> forall k :: 0 <= k < peers.Length ==> peers[k] == Settled(old(peers[..])[k], resolver)
    {
      ghost var before := peers[..];
      for i := 0 to peers.Length
        invariant forall k :: 0 <= k < i && Needs(before[k]) ==> AnswerFor(before[k], resolver).Resolved?
        invariant forall k :: 0 <= k < peers.Length ==>
                    peers[k] == if k < i then Settled(before[k], resolver) else before[k]
      {
        var peer := peers[i];
        if peer.endpoint.Some? || peer.destination.None? {
          continue;
        }
        var answer := resolver(peer.destination.value.fqdn);
        if answer.Failed? {
          assert FailsFirstAt(before, resolver, i);
          return true;
        }
        if answer.addr.Some? {
          peers[i] := peer.(endpoint := Some(AddrPort(answer.addr.value, peer.destination.value.port)));
        }
      }
      return false;
    }

    /** The whole start: the early phase, then, unless it failed, the late one. The device comes up
        exactly once when every needed resolution answers, and is never attempted when one fails. */
    method TwoPhaseStart(resolver: Resolver, first: DeviceResult, second: DeviceResult) returns (ok: bool)
      requires attempts == 0 && ups == 0
      modifies this, peers
      ensures attempts <= 1
      ensures attempts == 0 <==>
                exists k | 0 <= k < peers.Length && old(peers[k]).endpoint.None? && old(peers[k]).destination.Some? ::
                  resolver(old(peers[k]).destination.value.fqdn) == Failed
      // the device is brought up early exactly when no peer needs a resolution
      ensures var device := if exists k | 0 <= k < peers.Length :: old(peers[k]).endpoint.None? && old(peers[k]).destination.Some?
                            then second else first;
              ups == if attempts == 1 && device.tun && (listenPort == 0 || device.uapi) && device.ipcSet then 1 else 0
      ensures ok <==> ups == 1
      ensures ok ==> text == ipcConf + Tail(PeersEntries(ShownAll(peers[..])))
      // what became of each peer
      ensures attempts == 1 ==> forall k :: 0 <= k < peers.Length ==>
                && peers[k].(endpoint := old(peers[k]).endpoint) == old(peers[k])
                && (old(peers[k]).endpoint.Some? || old(peers[k]).destination.None? ==> peers[k] == old(peers[k]))
      ensures attempts == 1 ==>
                forall k | 0 <= k < peers.Length && old(peers[k]).endpoint.None? && old(peers[k]).destination.Some? ::
                var domain := old(peers[k]).destination.value;
                match resolver(domain.fqdn)
                case Failed => false
                case Resolved(None) => peers[k].endpoint == None
                case Resolved(Some(addr)) => peers[k].endpoint == Some(AddrPort(addr, domain.port))
    {
      ghost var before := peers[..];
      ok := Phases(resolver, first, second);
      PhasesMean(before, resolver);
      assert forall k :: 0 <= k < peers.Length ==> before[k] == old(peers[k]);
    }

    /** The two phases one after the other. */
    method Phases(resolver: Resolver, first: DeviceResult, second: DeviceResult) returns (ok: bool)
      requires attempts == 0 && ups == 0
      modifies this, peers
      ensures attempts <= 1
      ensures attempts == 0 <==> exists i :: FailsFirstAt(old(peers[..]), resolver, i)
      ensures var device := if SomeNeeds(old(peers[..])) then second else first;
              ups == if attempts == 1 && ComesUp(device, listenPort != 0) then 1 else 0
      ensures ok <==> ups == 1
      ensures attempts == 1 ==> forall k :: 0 <= k < peers.Length ==> peers[k] == Settled(old(peers[..])[k], resolver)
      ensures ok ==> text == ipcConf + Tail(PeersEntries(ShownAll(peers[..])))
    {
      ghost var before := peers[..];
      ok := Start(false, resolver, first);
      if !SomeNeeds(before) {
        assert forall k :: 0 <= k < |before| ==> !Needs(before[k]);
      } else {
        assert peers[..] == before;
      }
      if ok {
        ok := Start(true, resolver, second);
      }
      FirstFailure(before, resolver);
    }
  }

  /** The phases' conditions and effects, field by field. */
  lemma PhasesMean(peers: seq<PeerConfig>, resolver: Resolver)
    ensures SomeNeeds(peers) <==> exists k | 0 <= k < |peers| :: peers[k].endpoint.None? && peers[k].destination.Some?
    ensures (exists i :: FailsFirstAt(peers, resolver, i)) <==>
            exists k | 0 <= k < |peers| && peers[k].endpoint.None? && peers[k].destination.Some? ::
              resolver(peers[k].destination.value.fqdn) == Failed
    ensures forall k :: 0 <= k < |peers| ==>
              && Settled(peers[k], resolver).(endpoint := peers[k].endpoint) == peers[k]
              && (peers[k].endpoint.Some? || peers[k].destination.None? ==> Settled(peers[k], resolver) == peers[k])
    ensures forall k | 0 <= k < |peers| && peers[k].endpoint.None? && peers[k].destination.Some? ::
              match resolver(peers[k].destination.value.fqdn)
              case Failed => Settled(peers[k], resolver) == peers[k]
              case Resolved(None) => Settled(peers[k], resolver) == peers[k]
              case Resolved(Some(addr)) =>
                Settled(peers[k], resolver).endpoint == Some(AddrPort(addr, peers[k].destination.value.port))
  {
    FirstFailure(peers, resolver);
  }

  // ---- what the start guarantees -------------------------------------------------

  /** There is a first failure exactly when some needed resolution fails. */
  lemma {:induction false} FirstFailure(peers: seq<PeerConfig>, resolver: Resolver)
    ensures (exists i :: FailsFirstAt(peers, resolver, i)) <==>
            exists k :: 0 <= k < |peers| && Needs(peers[k]) && AnswerFor(peers[k], resolver).Failed?
  {
    if k :| 0 <= k < |peers| && Needs(peers[k]) && AnswerFor(peers[k], resolver).Failed? {
      var i := FirstFailureUpTo(peers, resolver, k);
    }
  }

  lemma {:induction false} FirstFailureUpTo(peers: seq<PeerConfig>, resolver: Resolver, k: nat) returns (i: nat)
    requires k < |peers| && Needs(peers[k]) && AnswerFor(peers[k], resolver).Failed?
    ensures FailsFirstAt(peers, resolver, i)
  {
    if j :| 0 <= j < k && Needs(peers[j]) && AnswerFor(peers[j], resolver).Failed? {
      i := FirstFailureUpTo(peers, resolver, j);
    } else {
      i := k;
    }
  }

  /** At a bring-up after the resolution, peer order and all other fields are as before, and a domain
      peer has the address that the resolver answered, with its own port, exactly when that answer was
      a valid address: an invalid one with no error is brought up without an endpoint. */
  lemma SettledPeer(p: PeerConfig, resolver: Resolver)
    ensures Settled(p, resolver).(endpoint := p.endpoint) == p
    ensures p.endpoint.Some? || p.destination.None? ==> Settled(p, resolver) == p
    ensures p.endpoint.None? && p.destination.Some? ==>
              Settled(p, resolver).endpoint == match resolver(p.destination.value.fqdn)
                                               case Failed => None
                                               case Resolved(None) => None
                                               case Resolved(Some(addr)) => Some(AddrPort(addr, p.destination.value.port))
  {}

  /** The lines that the device is handed for a peer, letter by letter. */
  lemma PeerConfigText(p: PeerConfig)
    ensures Tail(PeerEntries(Shown(p)))
         == "\n" + "public_key" + "=" + p.publicKeyHex
            + (if p.endpoint.None? then ""
               else if ':' in p.endpoint.value.addr
               then "\n" + "endpoint" + "=" + ("[" + p.endpoint.value.addr + "]:" + Decimal(p.endpoint.value.port))
               else "\n" + "endpoint" + "=" + (p.endpoint.value.addr + ":" + Decimal(p.endpoint.value.port)))
            + (if p.preSharedKeyHex != "" then "\n" + "preshared_key" + "=" + p.preSharedKeyHex else "")
            + Tail(AllowedIPs(p.allowedIPs))
            + (if p.keepalive > 0 then "\n" + "persistent_keepalive_interval" + "=" + Decimal(p.keepalive) else "")
  {
    PeerText(Shown(p));
  }

  /** ... and the peers' lines follow one another in order. */
  lemma PeerConfigsText(peers: seq<PeerConfig>, p: PeerConfig)
    ensures Tail(PeersEntries(ShownAll([]))) == ""
    ensures Tail(PeersEntries(ShownAll(peers + [p]))) == Tail(PeersEntries(ShownAll(peers))) + Tail(PeerEntries(Shown(p)))
  {
    assert ShownAll([]) == [] && ShownAll(peers + [p]) == ShownAll(peers) + [Shown(p)];
    PeersText(ShownAll(peers), Shown(p));
  }

  /** The text handed to the device reads back as the configuration, with the peers as they stand
      at the bring-up. */
  lemma BringUpText(privateKey: string, numbers: seq<int>, peers: seq<PeerConfig>)
    requires |numbers| == COUNT && OneLineConf(Conf(privateKey, numbers, ShownAll(peers)))
    ensures Read(Line(Entry("private_key", privateKey)) + Tail(Settings(numbers)) + Tail(PeersEntries(ShownAll(peers))))
         == Some(Normal(Conf(privateKey, numbers, ShownAll(peers))))
  {
    TextInParts(Conf(privateKey, numbers, ShownAll(peers)));
    RoundTrip(Conf(privateKey, numbers, ShownAll(peers)));
  }
}
