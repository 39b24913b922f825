/** The configuration text of transport/amnezia/endpoint.go: the lines of the WireGuard userspace
    configuration protocol with the Amnezia keys, and a reader for them to be checked against. */
module IpcText {
  import opened Common

  /** A peer as its lines show it. Keys, addresses and prefixes are opaque texts. */
  datatype Peer = Peer(
    publicKey: string, endpoint: Option<string>, presharedKey: string, allowedIPs: seq<string>, keepalive: nat)

  const COUNT: nat := 10

  /** The keys of the ten numeric settings, in the order they are printed. */
  function Key(k: nat): string
    requires k < COUNT
  {
    if k == 0 then "listen_port"
    else if k == 1 then "jc"
    else if k == 2 then "jmin"
    else if k == 3 then "jmax"
    else if k == 4 then "s1"
    else if k == 5 then "s2"
    else if k == 6 then "h1"
    else if k == 7 then "h2"
    else if k == 8 then "h3"
    else "h4"
  }

  /** The options the text is made of. */
  datatype Options = Options(
    privateKey: string, listenPort: nat,
    junkPacketCount: int, junkPacketMinSize: int, junkPacketMaxSize: int,
    initPacketJunkSize: int, responsePacketJunkSize: int,
    initPacketMagicHeader: nat, responsePacketMagicHeader: nat,
    underloadPacketMagicHeader: nat, transportPacketMagicHeader: nat)

  /** A configuration: `numbers[i]` is the setting printed under `Key(i)`. */
  datatype Conf = Conf(privateKey: string, numbers: seq<int>, peers: seq<Peer>)

  datatype Entry = Entry(key: string, value: string)

  // ---- decimal numbers -----------------------------------------------------------

  function Digit(d: nat): char
    requires d < 10
  {
    '0' + d as char
  }

  function Decimal(n: nat): (s: string)
    ensures s != ""
  {
    if n < 10 then [Digit(n)] else Decimal(n / 10) + [Digit(n % 10)]
  }

  function ReadDecimal(s: string): Option<nat> {
    if s == "" then None else
    var (init, c) := (s[..|s| - 1], s[|s| - 1]);
    if !('0' <= c <= '9') then None else
    var d := c as nat - '0' as nat;
    if init == "" then Some(d) else
    match ReadDecimal(init)
    case None => None
    case Some(n) => Some(10 * n + d)
  }

  lemma {:induction false} DecimalReads(n: nat)
    ensures ReadDecimal(Decimal(n)) == Some(n)
    ensures '\n' !in Decimal(n)
  {
    if n >= 10 {
      DecimalReads(n / 10);
      assert Decimal(n)[..|Decimal(n)| - 1] == Decimal(n / 10);
    }
  }

  // ---- the printer ---------------------------------------------------------------

  function Number(key: string, n: int): seq<Entry> {
    if n > 0 then [Entry(key, Decimal(n))] else []
  }

  function AllowedIPs(ips: seq<string>): seq<Entry> {
    if ips == [] then [] else AllowedIPs(ips[..|ips| - 1]) + [Entry("allowed_ip", ips[|ips| - 1])]
  }

  function PeerEntries(p: Peer): seq<Entry> {
    [Entry("public_key", p.publicKey)]
    + EndpointEntries(p)
    + PresharedEntries(p)
    + AllowedIPs(p.allowedIPs)
    + Number("persistent_keepalive_interval", p.keepalive)
  }

  function Settings(numbers: seq<int>): seq<Entry>
    requires |numbers| <= COUNT
  {
    if numbers == [] then [] else
    var k := |numbers| - 1;
    Settings(numbers[..k]) + Number(Key(k), numbers[k])
  }

  function PeersEntries(peers: seq<Peer>): seq<Entry> {
    if peers == [] then [] else PeersEntries(peers[..|peers| - 1]) + PeerEntries(peers[|peers| - 1])
  }

  function Line(e: Entry): string {
    e.key + "=" + e.value
  }

  /** Every line after the first is printed with its newline in front. */
  function Tail(es: seq<Entry>): string {
    if es == [] then "" else Tail(es[..|es| - 1]) + "\n" + Line(es[|es| - 1])
  }

  /** The whole configuration text. */
  function Text(c: Conf): string
    requires |c.numbers| == COUNT
  {
    Line(Entry("private_key", c.privateKey)) + Tail(Settings(c.numbers) + PeersEntries(c.peers))
  }

  lemma TailSnoc(es: seq<Entry>, e: Entry)
    ensures Tail(es + [e]) == Tail(es) + "\n" + Line(e)
  {
    assert (es + [e])[..|es|] == es;
  }

  lemma {:induction false} TailConcat(es: seq<Entry>, fs: seq<Entry>)
    ensures Tail(es + fs) == Tail(es) + Tail(fs)
  {
    if fs == [] {
      assert es + fs == es;
    } else {
      var init, f := fs[..|fs| - 1], fs[|fs| - 1];
      TailConcat(es, init);
      LastMoves(es, fs);
      TailSnoc(es + init, f);
      LinesAssociate(Tail(es), Tail(init), Line(f));
    }
  }

  lemma LastMoves(es: seq<Entry>, fs: seq<Entry>)
    requires fs != []
    ensures es + fs == (es + fs[..|fs| - 1]) + [fs[|fs| - 1]]
  {}

  lemma LinesAssociate(a: string, b: string, line: string)
    ensures a + b + "\n" + line == a + (b + "\n" + line)
  {}

  /** `text` is `first` and the lines of `es`. */
  ghost predicate Prints(text: string, first: string, es: seq<Entry>) {
    text == first + Tail(es)
  }

  method AppendLine(text: string, e: Entry, ghost first: string, ghost es: seq<Entry>) returns (r: string)
    requires Prints(text, first, es)
    ensures Prints(r, first, es + [e])
  {
    TailSnoc(es, e);
    r := text + "\n" + Line(e);
    assert r == first + (Tail(es) + "\n" + Line(e));
  }

  /** A number gets a line exactly when it is positive. */
  method AppendNumber(text: string, key: string, n: int, ghost first: string, ghost es: seq<Entry>) returns (r: string)
    requires Prints(text, first, es)
    ensures Prints(r, first, es + Number(key, n))
  {
    r := text;
    if n > 0 {
      r := AppendLine(r, Entry(key, Decimal(n)), first, es);
    } else {
      assert es + Number(key, n) == es;
    }
  }

  lemma SettingsOneMore(numbers: seq<int>, k: nat)
    requires k < |numbers| <= COUNT
    ensures Settings(numbers[..k + 1]) == Settings(numbers[..k]) + Number(Key(k), numbers[k])
  {
    assert numbers[..k + 1][..k] == numbers[..k];
  }

  method AppendSetting(text: string, key: string, n: int, ghost first: string, ghost numbers: seq<int>, ghost k: nat)
    returns (r: string)
    requires k < |numbers| <= COUNT && key == Key(k) && n == numbers[k]
    requires Prints(text, first, Settings(numbers[..k]))
    ensures Prints(r, first, Settings(numbers[..k + 1]))
  {
    SettingsOneMore(numbers, k);
    r := AppendNumber(text, key, n, first, Settings(numbers[..k]));
  }

  /** The settings in the order of `Key`. */
  function Numbers(o: Options): (numbers: seq<int>)
    ensures |numbers| == COUNT
  {
    [o.listenPort, o.junkPacketCount, o.junkPacketMinSize, o.junkPacketMaxSize, o.initPacketJunkSize,
     o.responsePacketJunkSize, o.initPacketMagicHeader, o.responsePacketMagicHeader,
     o.underloadPacketMagicHeader, o.transportPacketMagicHeader]
  }

  lemma NumbersAt(o: Options)
    ensures var n := Numbers(o);
            && n[0] == o.listenPort && n[1] == o.junkPacketCount && n[2] == o.junkPacketMinSize && n[3] == o.junkPacketMaxSize
            && n[4] == o.initPacketJunkSize && n[5] == o.responsePacketJunkSize && n[6] == o.initPacketMagicHeader
            && n[7] == o.responsePacketMagicHeader && n[8] == o.underloadPacketMagicHeader
            && n[9] == o.transportPacketMagicHeader
  {}

  /** The port and the junk packet settings. */
  method AppendJunk(text: string, o: Options, ghost first: string, ghost numbers: seq<int>) returns (r: string)
    requires |numbers| == COUNT && Prints(text, first, Settings(numbers[..0]))
    requires numbers[0] == o.listenPort && numbers[1] == o.junkPacketCount
    requires numbers[2] == o.junkPacketMinSize && numbers[3] == o.junkPacketMaxSize
    ensures Prints(r, first, Settings(numbers[..4]))
  {
    r := text;
    r := AppendSetting(r, "listen_port", o.listenPort, first, numbers, 0);
    r := AppendSetting(r, "jc", o.junkPacketCount, first, numbers, 1);
    r := AppendSetting(r, "jmin", o.junkPacketMinSize, first, numbers, 2);
    r := AppendSetting(r, "jmax", o.junkPacketMaxSize, first, numbers, 3);
  }

  /** The junk sizes of the handshake packets. */
  method AppendSizes(text: string, o: Options, ghost first: string, ghost numbers: seq<int>) returns (r: string)
    requires |numbers| == COUNT && Prints(text, first, Settings(numbers[..4]))
    requires numbers[4] == o.initPacketJunkSize && numbers[5] == o.responsePacketJunkSize
    ensures Prints(r, first, Settings(numbers[..6]))
  {
    r := text;
    r := AppendSetting(r, "s1", o.initPacketJunkSize, first, numbers, 4);
    r := AppendSetting(r, "s2", o.responsePacketJunkSize, first, numbers, 5);
  }

  /** The magic headers. */
  method AppendHeaders(text: string, o: Options, ghost first: string, ghost numbers: seq<int>) returns (r: string)
    requires |numbers| == COUNT && Prints(text, first, Settings(numbers[..6]))
    requires numbers[6] == o.initPacketMagicHeader && numbers[7] == o.responsePacketMagicHeader
    requires numbers[8] == o.underloadPacketMagicHeader && numbers[9] == o.transportPacketMagicHeader
    ensures Prints(r, first, Settings(numbers[..10]))
  {
    r := text;
    r := AppendSetting(r, "h1", o.initPacketMagicHeader, first, numbers, 6);
    r := AppendSetting(r, "h2", o.responsePacketMagicHeader, first, numbers, 7);
    r := AppendSetting(r, "h3", o.underloadPacketMagicHeader, first, numbers, 8);
    r := AppendSetting(r, "h4", o.transportPacketMagicHeader, first, numbers, 9);
  }

  /** The part of the text that `NewEndpoint` builds. */
  method IpcConf(o: Options) returns (ipcConf: string)
    ensures ipcConf == Line(Entry("private_key", o.privateKey)) + Tail(Settings(Numbers(o)))
  {
    ipcConf := "private_key" + "=" + o.privateKey;
    ghost var first, numbers := ipcConf, Numbers(o);
    NumbersAt(o);
    assert first + "" == first && numbers[..0] == [] && numbers[..COUNT] == numbers;
    ipcConf := AppendJunk(ipcConf, o, first, numbers);
    ipcConf := AppendSizes(ipcConf, o, first, numbers);
    ipcConf := AppendHeaders(ipcConf, o, first, numbers);
  }

  function EndpointEntries(p: Peer): seq<Entry> {
    if p.endpoint.Some? then [Entry("endpoint", p.endpoint.value)] else []
  }

  function PresharedEntries(p: Peer): seq<Entry> {
    if p.presharedKey != "" then [Entry("preshared_key", p.presharedKey)] else []
  }

  /** A line that is printed only when its value is there. */
  method AppendOptional(text: string, present: bool, key: string, value: string, ghost es: seq<Entry>) returns (r: string)
    requires Prints(text, "", es)
    ensures Prints(r, "", es + if present then [Entry(key, value)] else [])
  {
    r := text;
    if present {
      r := AppendLine(r, Entry(key, value), "", es);
    } else {
      assert es + [] == es;
    }
  }

  method AppendAllowedIPs(text: string, ips: seq<string>, ghost es: seq<Entry>) returns (r: string)
    requires Prints(text, "", es)
    ensures Prints(r, "", es + AllowedIPs(ips))
  {
    r := text;
    assert es + AllowedIPs([]) == es;
    for i := 0 to |ips|
      invariant Prints(r, "", es + AllowedIPs(ips[..i]))
    {
      assert ips[..i + 1][..i] == ips[..i];
      ghost var soFar := es + AllowedIPs(ips[..i]);
      r := AppendLine(r, Entry("allowed_ip", ips[i]), "", soFar);
      assert soFar + [Entry("allowed_ip", ips[i])] == es + AllowedIPs(ips[..i + 1]);
    }
    assert ips[..|ips|] == ips;
  }

  /** `GenerateIpcLines` */
  method GenerateIpcLines(p: Peer) returns (ipcLines: string)
    ensures ipcLines == Tail(PeerEntries(p))
  {
    ghost var es := [Entry("public_key", p.publicKey)];
    assert "" + Tail([]) == "" && [] + es == es;
    ipcLines := AppendLine("", Entry("public_key", p.publicKey), "", []);
    ipcLines := AppendOptional(ipcLines, p.endpoint.Some?, "endpoint", p.endpoint.GetOr(""), es);
    es := es + EndpointEntries(p);
    ipcLines := AppendOptional(ipcLines, p.presharedKey != "", "preshared_key", p.presharedKey, es);
    es := es + PresharedEntries(p);
    ipcLines := AppendAllowedIPs(ipcLines, p.allowedIPs, es);
    es := es + AllowedIPs(p.allowedIPs);
    ipcLines := AppendNumber(ipcLines, "persistent_keepalive_interval", p.keepalive, "", es);
    assert es + Number("persistent_keepalive_interval", p.keepalive) == PeerEntries(p);
  }

  /** The loop of `Start` that appends the peers. */
  method AppendPeers(ipcConf: string, peers: seq<Peer>) returns (text: string)
    ensures text == ipcConf + Tail(PeersEntries(peers))
  {
    text := ipcConf;
    assert ipcConf + "" == ipcConf;
    for i := 0 to |peers|
      invariant text == ipcConf + Tail(PeersEntries(peers[..i]))
    {
      var lines := GenerateIpcLines(peers[i]);
      MorePeers(ipcConf, peers, i);
      text := text + lines;
    }
    assert peers[..|peers|] == peers;
  }

  lemma MorePeers(first: string, peers: seq<Peer>, i: nat)
    requires i < |peers|
    ensures first + Tail(PeersEntries(peers[..i + 1]))
         == first + Tail(PeersEntries(peers[..i])) + Tail(PeerEntries(peers[i]))
  {
    assert peers[..i + 1][..i] == peers[..i] && peers[..i + 1][i] == peers[i];
    var (before, lines) := (PeersEntries(peers[..i]), PeerEntries(peers[i]));
    assert PeersEntries(peers[..i + 1]) == before + lines;
    TailConcat(before, lines);
    assert first + (Tail(before) + Tail(lines)) == first + Tail(before) + Tail(lines);
  }

  // ---- the texts, letter by letter -----------------------------------------------

  /** Numbers are printed in decimal. */
  lemma DecimalMeans(n: nat)
    ensures n < 10 ==> Decimal(n) == ["0123456789"[n]]
    ensures n >= 10 ==> Decimal(n) == Decimal(n / 10) + ["0123456789"[n % 10]]
  {
    DigitMeans(n % 10);
  }

  lemma DigitMeans(d: nat)
    requires d < 10
    ensures Digit(d) == "0123456789"[d]
  {}

  /** The text of a setting, which is none when the number is not positive. */
  function NumberText(key: string, n: int): string {
    if n > 0 then "\n" + key + "=" + Decimal(n) else ""
  }

  /** A text followed by the settings of `pairs`. */
  function Followed(text: string, pairs: seq<(string, int)>): string {
    if pairs == [] then text else
    var (key, n) := pairs[|pairs| - 1];
    Followed(text, pairs[..|pairs| - 1]) + NumberText(key, n)
  }

  /** A setting that is not positive is omitted, a positive one has a line of its own. */
  lemma FollowedMeans(text: string, pairs: seq<(string, int)>, key: string, n: int)
    ensures Followed(text, []) == text
    ensures Followed(text, pairs + [(key, n)])
         == Followed(text, pairs) + (if n > 0 then "\n" + key + "=" + Decimal(n) else "")
  {
    assert (pairs + [(key, n)])[..|pairs|] == pairs;
  }

  lemma {:induction false} SettingsText(first: string, numbers: seq<int>, pairs: seq<(string, int)>)
    requires |pairs| == |numbers| <= COUNT && forall k :: 0 <= k < |numbers| ==> pairs[k] == (Key(k), numbers[k])
    ensures first + Tail(Settings(numbers)) == Followed(first, pairs)
  {
    if numbers == [] {
      assert first + "" == first;
    } else {
      var k := |numbers| - 1;
      SettingsText(first, numbers[..k], pairs[..k]);
      TailConcat(Settings(numbers[..k]), Number(Key(k), numbers[k]));
      OneNumberText(Key(k), numbers[k]);
      Associative(first, Tail(Settings(numbers[..k])), Tail(Number(Key(k), numbers[k])));
    }
  }

  lemma OneNumberText(key: string, n: int)
    ensures Tail(Number(key, n)) == NumberText(key, n)
  {
    if n > 0 {
      OneEntryText(Entry(key, Decimal(n)));
    }
  }

  lemma OneEntryText(e: Entry)
    ensures Tail([e]) == "\n" + e.key + "=" + e.value
  {
    assert [e][..0] == [] && "" + "\n" == "\n";
    assert "\n" + (e.key + "=" + e.value) == "\n" + e.key + "=" + e.value;
  }

  /** Which option is printed under which key, and in which order. */
  lemma ConfText(o: Options)
    ensures Line(Entry("private_key", o.privateKey)) + Tail(Settings(Numbers(o)))
         == Followed("private_key=" + o.privateKey,
                     [("listen_port", o.listenPort), ("jc", o.junkPacketCount), ("jmin", o.junkPacketMinSize),
                      ("jmax", o.junkPacketMaxSize), ("s1", o.initPacketJunkSize), ("s2", o.responsePacketJunkSize),
                      ("h1", o.initPacketMagicHeader), ("h2", o.responsePacketMagicHeader),
                      ("h3", o.underloadPacketMagicHeader), ("h4", o.transportPacketMagicHeader)])
  {
    FirstLineText(o.privateKey);
    SettingsText("private_key=" + o.privateKey, Numbers(o),
                 [("listen_port", o.listenPort), ("jc", o.junkPacketCount), ("jmin", o.junkPacketMinSize),
                  ("jmax", o.junkPacketMaxSize), ("s1", o.initPacketJunkSize), ("s2", o.responsePacketJunkSize),
                  ("h1", o.initPacketMagicHeader), ("h2", o.responsePacketMagicHeader),
                  ("h3", o.underloadPacketMagicHeader), ("h4", o.transportPacketMagicHeader)]);
  }

  lemma FirstLineText(key: string)
    ensures Line(Entry("private_key", key)) == "private_key=" + key
  {
    assert "private_key" + "=" == "private_key=";
  }

  /** The text of one peer. */
  lemma PeerText(p: Peer)
    ensures Tail(PeerEntries(p))
         == "\n" + "public_key" + "=" + p.publicKey
            + (if p.endpoint.Some? then "\n" + "endpoint" + "=" + p.endpoint.value else "")
            + (if p.presharedKey != "" then "\n" + "preshared_key" + "=" + p.presharedKey else "")
            + Tail(AllowedIPs(p.allowedIPs))
            + (if p.keepalive > 0 then "\n" + "persistent_keepalive_interval" + "=" + Decimal(p.keepalive) else "")
  {
    var (key, endpoint, preshared, ips, keepalive) :=
      ([Entry("public_key", p.publicKey)], EndpointEntries(p), PresharedEntries(p), AllowedIPs(p.allowedIPs),
       Number("persistent_keepalive_interval", p.keepalive));
    FiveTails(key, endpoint, preshared, ips, keepalive);
    OneEntryText(key[0]);
    OptionalTexts(p);
    OneNumberText("persistent_keepalive_interval", p.keepalive);
  }

  lemma FiveTails(a: seq<Entry>, b: seq<Entry>, c: seq<Entry>, d: seq<Entry>, e: seq<Entry>)
    ensures Tail(a + b + c + d + e) == Tail(a) + Tail(b) + Tail(c) + Tail(d) + Tail(e)
  {
    TailConcat(a, b);
    TailConcat(a + b, c);
    TailConcat(a + b + c, d);
    TailConcat(a + b + c + d, e);
  }

  lemma OptionalTexts(p: Peer)
    ensures Tail(EndpointEntries(p)) == if p.endpoint.Some? then "\n" + "endpoint" + "=" + p.endpoint.value else ""
    ensures Tail(PresharedEntries(p)) == if p.presharedKey != "" then "\n" + "preshared_key" + "=" + p.presharedKey else ""
  {
    if p.endpoint.Some? {
      OneEntryText(Entry("endpoint", p.endpoint.value));
    }
    if p.presharedKey != "" {
      OneEntryText(Entry("preshared_key", p.presharedKey));
    }
  }

  /** The allowed prefixes, each on its line, in order. */
  lemma AllowedText(ips: seq<string>, ip: string)
    ensures Tail(AllowedIPs([])) == ""
    ensures Tail(AllowedIPs(ips + [ip])) == Tail(AllowedIPs(ips)) + ("\n" + "allowed_ip" + "=" + ip)
  {
    assert (ips + [ip])[..|ips|] == ips;
    TailConcat(AllowedIPs(ips), [Entry("allowed_ip", ip)]);
    OneEntryText(Entry("allowed_ip", ip));
  }

  /** The peers' texts one after the other. */
  lemma PeersText(peers: seq<Peer>, p: Peer)
    ensures Tail(PeersEntries([])) == ""
    ensures Tail(PeersEntries(peers + [p])) == Tail(PeersEntries(peers)) + Tail(PeerEntries(p))
  {
    assert (peers + [p])[..|peers|] == peers;
    TailConcat(PeersEntries(peers), PeerEntries(p));
  }

  // ---- a reader ------------------------------------------------------------------

  /** The text cut at its newlines; an empty text is one empty line. */
  function Lines(s: string): seq<string> {
    if s == "" then [""]
    else if s[|s| - 1] == '\n' then Lines(s[..|s| - 1]) + [""]
    else
      var ls := Lines(s[..|s| - 1]);
      if ls == [] then [[s[|s| - 1]]] else ls[|ls| - 1 := ls[|ls| - 1] + [s[|s| - 1]]]
  }

  /** A line, split at its first `=`. */
  function KeyValue(line: string): Option<Entry> {
    if line == "" then None
    else if line[0] == '=' then Some(Entry("", line[1..]))
    else match KeyValue(line[1..])
         case None => None
         case Some(e) => Some(e.(key := [line[0]] + e.key))
  }

  function KeyIndex(key: string): (i: int)
    ensures -1 <= i < COUNT
  {
    match key
    case "listen_port" => 0
    case "jc" => 1
    case "jmin" => 2
    case "jmax" => 3
    case "s1" => 4
    case "s2" => 5
    case "h1" => 6
    case "h2" => 7
    case "h3" => 8
    case "h4" => 9
    case _ => -1
  }

  function WithPeerField(p: Peer, e: Entry): Option<Peer> {
    match e.key
    case "endpoint" => Some(p.(endpoint := Some(e.value)))
    case "preshared_key" => Some(p.(presharedKey := e.value))
    case "allowed_ip" => Some(p.(allowedIPs := p.allowedIPs + [e.value]))
    case "persistent_keepalive_interval" =>
      (match ReadDecimal(e.value)
       case None => None
       case Some(n) => Some(p.(keepalive := n)))
    case _ => None
  }

  /** One line of the protocol: a device setting before the first peer, a new peer, or a field of
      the peer opened last. */
  function Interpret(c: Conf, e: Entry): Option<Conf> {
    if e.key == "public_key" then Some(c.(peers := c.peers + [Peer(e.value, None, "", [], 0)]))
    else if c.peers != [] then
      var last := |c.peers| - 1;
      match WithPeerField(c.peers[last], e)
      case None => None
      case Some(p) => Some(c.(peers := c.peers[last := p]))
    else if e.key == "private_key" then Some(c.(privateKey := e.value))
    else match ReadDecimal(e.value)
         case None => None
         case Some(n) =>
           var i := KeyIndex(e.key);
           if 0 <= i < |c.numbers| then Some(c.(numbers := c.numbers[i := n])) else None
  }

  function InterpretAll(c: Conf, es: seq<Entry>): Option<Conf> {
    if es == [] then Some(c) else
    match InterpretAll(c, es[..|es| - 1])
    case None => None
    case Some(c') => Interpret(c', es[|es| - 1])
  }

  function KeyValues(lines: seq<string>): Option<seq<Entry>> {
    if lines == [] then Some([]) else
    match (KeyValues(lines[..|lines| - 1]), KeyValue(lines[|lines| - 1]))
    case (Some(es), Some(e)) => Some(es + [e])
    case _ => None
  }

  const BLANK: Conf := Conf("", [0, 0, 0, 0, 0, 0, 0, 0, 0, 0], [])

  /** Omitted settings read as zero, omitted peer fields as absent. */
  function Read(text: string): Option<Conf> {
    match KeyValues(Lines(text))
    case None => None
    case Some(es) => InterpretAll(BLANK, es)
  }

  // ---- the round trip ------------------------------------------------------------

  /** What the text keeps of a configuration: negative sizes become zero. */
  function Normal(c: Conf): Conf {
    c.(numbers := seq(|c.numbers|, i requires 0 <= i < |c.numbers| => Positive(c.numbers[i])))
  }

  function Positive(n: int): int {
    if n > 0 then n else 0
  }

  predicate OneLine(s: string) {
    '\n' !in s
  }

  predicate OneLinePeer(p: Peer) {
    && OneLine(p.publicKey) && (p.endpoint.Some? ==> OneLine(p.endpoint.value)) && OneLine(p.presharedKey)
    && forall i :: 0 <= i < |p.allowedIPs| ==> OneLine(p.allowedIPs[i])
  }

  /** Keys, addresses and prefixes hold no newline. */
  predicate OneLineConf(c: Conf) {
    OneLine(c.privateKey) && forall i :: 0 <= i < |c.peers| ==> OneLinePeer(c.peers[i])
  }

  predicate Printable(e: Entry) {
    '=' !in e.key && '\n' !in e.key && OneLine(e.value)
  }

  predicate AllPrintable(es: seq<Entry>) {
    forall i :: 0 <= i < |es| ==> Printable(es[i])
  }

  lemma {:induction false} LinesJoin(s: string, t: string)
    requires OneLine(t)
    ensures Lines(s + "\n" + t) == Lines(s) + [t]
  {
    var whole := s + "\n" + t;
    if t == "" {
      assert whole[..|whole| - 1] == s;
    } else {
      var init, c := t[..|t| - 1], t[|t| - 1];
      assert whole[..|whole| - 1] == s + "\n" + init;
      LinesJoin(s, init);
      assert c in t && init + [c] == t;
    }
  }

  lemma {:induction false} SingleLine(t: string)
    requires OneLine(t)
    ensures Lines(t) == [t]
  {
    if t != "" {
      var init, c := t[..|t| - 1], t[|t| - 1];
      SingleLine(init);
      assert c in t && init + [c] == t;
    }
  }

  lemma {:induction false} KeyValueOfLine(key: string, value: string)
    requires '=' !in key
    ensures KeyValue(key + "=" + value) == Some(Entry(key, value))
  {
    var line := key + "=" + value;
    if key == "" {
      assert line[1..] == value;
    } else {
      assert key[0] in key;
      assert line[1..] == key[1..] + "=" + value;
      KeyValueOfLine(key[1..], value);
      assert [key[0]] + key[1..] == key;
    }
  }

  lemma KeyValuesOneMore(lines: seq<string>, es: seq<Entry>, e: Entry)
    requires KeyValues(lines) == Some(es) && '=' !in e.key
    ensures KeyValues(lines + [Line(e)]) == Some(es + [e])
  {
    assert (lines + [Line(e)])[..|lines|] == lines;
    KeyValueOfLine(e.key, e.value);
  }

  /** The lines of a printed text are its entries again. */
  lemma {:induction false} TailReads(first: Entry, es: seq<Entry>)
    requires Printable(first) && AllPrintable(es)
    ensures KeyValues(Lines(Line(first) + Tail(es))) == Some([first] + es)
  {
    if es == [] {
      FirstLineReads(first);
      assert Tail(es) == "" && [first] + es == [first];
    } else {
      var init, e := es[..|es| - 1], es[|es| - 1];
      TailReads(first, init);
      OneMoreLineReads(Line(first) + Tail(init), [first] + init, e);
      LinesAssociate(Line(first), Tail(init), Line(e));
      FirstAndRest(first, es);
    }
  }

  lemma FirstAndRest(first: Entry, es: seq<Entry>)
    requires es != []
    ensures ([first] + es[..|es| - 1]) + [es[|es| - 1]] == [first] + es
  {}

  lemma OneMoreLineReads(before: string, es: seq<Entry>, e: Entry)
    requires KeyValues(Lines(before)) == Some(es) && Printable(e)
    ensures KeyValues(Lines(before + "\n" + Line(e))) == Some(es + [e])
  {
    LinesJoin(before, Line(e));
    KeyValuesOneMore(Lines(before), es, e);
  }

  lemma FirstLineReads(first: Entry)
    requires Printable(first)
    ensures KeyValues(Lines(Line(first) + "")) == Some([first])
  {
    assert Line(first) + "" == Line(first);
    SingleLine(Line(first));
    KeyValuesOneMore([], [], first);
    assert [] + [Line(first)] == [Line(first)] && [] + [first] == [first];
  }

  lemma {:induction false} InterpretConcat(c: Conf, es: seq<Entry>, fs: seq<Entry>)
    ensures InterpretAll(c, es + fs) == match InterpretAll(c, es)
                                        case None => None
                                        case Some(c') => InterpretAll(c', fs)
  {
    if fs == [] {
      assert es + fs == es;
    } else {
      var init, f := fs[..|fs| - 1], fs[|fs| - 1];
      assert (es + fs)[..|es + fs| - 1] == es + init;
      InterpretConcat(c, es, init);
    }
  }

  lemma InterpretOne(c: Conf, e: Entry)
    ensures InterpretAll(c, [e]) == Interpret(c, e)
  {
    assert [e][..0] == [];
  }

  lemma KeyIndexOf(k: nat)
    requires k < COUNT
    ensures KeyIndex(Key(k)) == k
    ensures Key(k) != "public_key" && Key(k) != "private_key"
    ensures '=' !in Key(k) && '\n' !in Key(k)
  {}

  /** The settings, read in the order they are printed, fill the numbers from the left; an omitted
      one leaves its zero. */
  lemma {:induction false} SettingsRead(start: Conf, numbers: seq<int>)
    requires |numbers| <= COUNT && start == BLANK.(privateKey := start.privateKey)
    ensures InterpretAll(start, Settings(numbers))
         == Some(start.(numbers := Filled(numbers)))
  {
    if numbers == [] {
      assert BLANK.numbers == Filled(numbers);
    } else {
      var k := |numbers| - 1;
      SettingsRead(start, numbers[..k]);
      NumberReads(start, Settings(numbers[..k]), start.(numbers := Filled(numbers[..k])), k, numbers[k]);
      FilledOneMore(numbers);
    }
  }

  /** The numbers read so far, and zeros for the rest. */
  function Filled(numbers: seq<int>): seq<int> {
    seq(COUNT, i => if 0 <= i < |numbers| then Positive(numbers[i]) else 0)
  }

  lemma FilledOneMore(numbers: seq<int>)
    requires 0 < |numbers| <= COUNT
    ensures var k := |numbers| - 1;
            Filled(numbers) == if numbers[k] > 0 then Filled(numbers[..k])[k := numbers[k]] else Filled(numbers[..k])
  {}

  lemma NumberReads(start: Conf, es: seq<Entry>, c: Conf, k: nat, n: int)
    requires InterpretAll(start, es) == Some(c) && c.peers == [] && k < COUNT == |c.numbers|
    ensures InterpretAll(start, es + Number(Key(k), n))
         == Some(if n > 0 then c.(numbers := c.numbers[k := n]) else c)
  {
    if n > 0 {
      DecimalReads(n);
      KeyIndexOf(k);
      InterpretOne(c, Entry(Key(k), Decimal(n)));
      InterpretConcat(start, es, Number(Key(k), n));
    } else {
      assert es + Number(Key(k), n) == es;
    }
  }

  /** A configuration whose last peer is `p`. */
  function Opened(c: Conf, p: Peer): Conf {
    c.(peers := c.peers + [p])
  }

  lemma PeerFieldReads(c: Conf, es: seq<Entry>, from: Conf, p: Peer, e: Entry, p': Peer)
    requires InterpretAll(from, es) == Some(Opened(c, p)) && e.key != "public_key"
    requires WithPeerField(p, e) == Some(p')
    ensures InterpretAll(from, es + [e]) == Some(Opened(c, p'))
  {
    InterpretConcat(from, es, [e]);
    InterpretOne(Opened(c, p), e);
    assert Opened(c, p).peers[|c.peers| := p'] == c.peers + [p'];
  }

  lemma {:induction false} AllowedIPsRead(c: Conf, es: seq<Entry>, from: Conf, p: Peer, ips: seq<string>)
    requires InterpretAll(from, es) == Some(Opened(c, p)) && p.allowedIPs == []
    ensures InterpretAll(from, es + AllowedIPs(ips)) == Some(Opened(c, p.(allowedIPs := ips)))
  {
    if ips == [] {
      assert es + AllowedIPs(ips) == es;
    } else {
      var init, ip := ips[..|ips| - 1], ips[|ips| - 1];
      AllowedIPsRead(c, es, from, p, init);
      var (q, q') := (p.(allowedIPs := init), p.(allowedIPs := ips));
      assert WithPeerField(q, Entry("allowed_ip", ip)) == Some(q') by { assert init + [ip] == ips; }
      PeerFieldReads(c, es + AllowedIPs(init), from, q, Entry("allowed_ip", ip), q');
      assert es + AllowedIPs(ips) == es + AllowedIPs(init) + [Entry("allowed_ip", ip)];
    }
  }

  /** A peer's lines open exactly that peer. */
  lemma PeerReads(c: Conf, p: Peer)
    ensures InterpretAll(c, PeerEntries(p)) == Some(Opened(c, p))
  {
    var es := [Entry("public_key", p.publicKey)];
    var q := Peer(p.publicKey, None, "", [], 0);
    InterpretOne(c, es[0]);
    if p.endpoint.Some? {
      PeerFieldReads(c, es, c, q, Entry("endpoint", p.endpoint.value), q.(endpoint := p.endpoint));
    } else {
      assert es + EndpointEntries(p) == es;
    }
    es, q := es + EndpointEntries(p), q.(endpoint := p.endpoint);
    if p.presharedKey != "" {
      PeerFieldReads(c, es, c, q, Entry("preshared_key", p.presharedKey), q.(presharedKey := p.presharedKey));
    } else {
      assert es + PresharedEntries(p) == es;
    }
    es, q := es + PresharedEntries(p), q.(presharedKey := p.presharedKey);
    AllowedIPsRead(c, es, c, q, p.allowedIPs);
    es, q := es + AllowedIPs(p.allowedIPs), q.(allowedIPs := p.allowedIPs);
    KeepaliveReads(c, es, q, p.keepalive);
    assert es + Number("persistent_keepalive_interval", p.keepalive) == PeerEntries(p);
  }

  lemma KeepaliveReads(c: Conf, es: seq<Entry>, q: Peer, n: nat)
    requires InterpretAll(c, es) == Some(Opened(c, q)) && q.keepalive == 0
    ensures InterpretAll(c, es + Number("persistent_keepalive_interval", n)) == Some(Opened(c, q.(keepalive := n)))
  {
    if n > 0 {
      DecimalReads(n);
      PeerFieldReads(c, es, c, q, Entry("persistent_keepalive_interval", Decimal(n)), q.(keepalive := n));
    } else {
      assert es + Number("persistent_keepalive_interval", n) == es;
    }
  }

  lemma {:induction false} PeersRead(c: Conf, peers: seq<Peer>)
    requires c.peers == []
    ensures InterpretAll(c, PeersEntries(peers)) == Some(c.(peers := peers))
  {
    if peers != [] {
      var (init, p) := (peers[..|peers| - 1], peers[|peers| - 1]);
      PeersRead(c, init);
      PeerReads(c.(peers := init), p);
      LastPeer(peers);
      InTurn(c, PeersEntries(init), c.(peers := init), PeerEntries(p), Opened(c.(peers := init), p), PeersEntries(peers));
    }
  }

  lemma LastPeer(peers: seq<Peer>)
    requires peers != []
    ensures peers[..|peers| - 1] + [peers[|peers| - 1]] == peers
  {}

  /** Entries read one after the other. */
  lemma InTurn(c: Conf, es: seq<Entry>, d: Conf, fs: seq<Entry>, e: Conf, all: seq<Entry>)
    requires InterpretAll(c, es) == Some(d) && InterpretAll(d, fs) == Some(e) && all == es + fs
    ensures InterpretAll(c, all) == Some(e)
  {
    InterpretConcat(c, es, fs);
  }

  lemma {:induction false} PeersPrintable(peers: seq<Peer>)
    requires forall i :: 0 <= i < |peers| ==> OneLinePeer(peers[i])
    ensures AllPrintable(PeersEntries(peers))
  {
    if peers != [] {
      PeersPrintable(peers[..|peers| - 1]);
      PeerPrintable(peers[|peers| - 1]);
      PrintableConcat(PeersEntries(peers[..|peers| - 1]), PeerEntries(peers[|peers| - 1]));
    }
  }

  lemma PeerPrintable(p: Peer)
    requires OneLinePeer(p)
    ensures AllPrintable(PeerEntries(p))
  {
    var head := [Entry("public_key", p.publicKey)] + EndpointEntries(p) + PresharedEntries(p);
    PeerHeadPrintable(p);
    AllowedIPsPrintable(p.allowedIPs);
    PrintableConcat(head, AllowedIPs(p.allowedIPs));
    NumberPrintable("persistent_keepalive_interval", p.keepalive);
    PrintableConcat(head + AllowedIPs(p.allowedIPs), Number("persistent_keepalive_interval", p.keepalive));
  }

  lemma PeerHeadPrintable(p: Peer)
    requires OneLinePeer(p)
    ensures AllPrintable([Entry("public_key", p.publicKey)] + EndpointEntries(p) + PresharedEntries(p))
  {
    OptionalPrintable(p);
    OnePrintable(Entry("public_key", p.publicKey));
    ThreePrintable([Entry("public_key", p.publicKey)], EndpointEntries(p), PresharedEntries(p));
  }

  lemma OnePrintable(e: Entry)
    requires Printable(e)
    ensures AllPrintable([e])
  {}

  lemma ThreePrintable(a: seq<Entry>, b: seq<Entry>, c: seq<Entry>)
    requires AllPrintable(a) && AllPrintable(b) && AllPrintable(c)
    ensures AllPrintable(a + b + c)
  {
    PrintableConcat(a, b);
    PrintableConcat(a + b, c);
  }

  lemma OptionalPrintable(p: Peer)
    requires OneLinePeer(p)
    ensures AllPrintable(EndpointEntries(p)) && AllPrintable(PresharedEntries(p))
  {
    if p.endpoint.Some? {
      OnePrintable(Entry("endpoint", p.endpoint.value));
    }
    OnePrintable(Entry("preshared_key", p.presharedKey));
  }

  lemma {:induction false} AllowedIPsPrintable(ips: seq<string>)
    requires forall i :: 0 <= i < |ips| ==> OneLine(ips[i])
    ensures AllPrintable(AllowedIPs(ips))
  {
    if ips != [] {
      AllowedIPsPrintable(ips[..|ips| - 1]);
    }
  }

  lemma {:induction false} SettingsPrintable(numbers: seq<int>)
    requires |numbers| <= COUNT
    ensures AllPrintable(Settings(numbers))
  {
    if numbers != [] {
      var k := |numbers| - 1;
      SettingsPrintable(numbers[..k]);
      KeyIndexOf(k);
      NumberPrintable(Key(k), numbers[k]);
      PrintableConcat(Settings(numbers[..k]), Number(Key(k), numbers[k]));
    }
  }

  lemma NumberPrintable(key: string, n: int)
    requires '=' !in key && '\n' !in key
    ensures AllPrintable(Number(key, n))
  {
    if n > 0 {
      DecimalReads(n);
    }
  }

  lemma PrintableConcat(es: seq<Entry>, fs: seq<Entry>)
    requires AllPrintable(es) && AllPrintable(fs)
    ensures AllPrintable(es + fs)
  {}

  /** Reading the whole printed text gives back the configuration, negative sizes as zero, with
      all peers and all allowed prefixes in order. */
  lemma RoundTrip(c: Conf)
    requires |c.numbers| == COUNT && OneLineConf(c)
    ensures Read(Text(c)) == Some(Normal(c))
  {
    var first := Entry("private_key", c.privateKey);
    var (settings, peers) := (Settings(c.numbers), PeersEntries(c.peers));
    SettingsPrintable(c.numbers);
    PeersPrintable(c.peers);
    PrintableConcat(settings, peers);
    TailReads(first, settings + peers);
    var start := BLANK.(privateKey := c.privateKey);
    var d := Normal(c).(peers := []);
    SettingsFill(c, start);
    PeersRead(d, c.peers);
    InTurn(start, settings, d, peers, Normal(c), settings + peers);
    InterpretOne(BLANK, first);
    InTurn(BLANK, [first], start, settings + peers, Normal(c), [first] + (settings + peers));
  }

  lemma SettingsFill(c: Conf, start: Conf)
    requires |c.numbers| == COUNT && start == BLANK.(privateKey := c.privateKey)
    ensures InterpretAll(start, Settings(c.numbers)) == Some(Normal(c).(peers := []))
  {
    SettingsRead(start, c.numbers);
    assert start.(numbers := Filled(c.numbers)) == Normal(c).(peers := []);
  }

  /** So two configurations with the same text are the same up to normalisation. */
  lemma Injective(c: Conf, d: Conf)
    requires |c.numbers| == COUNT == |d.numbers| && OneLineConf(c) && OneLineConf(d) && Text(c) == Text(d)
    ensures Normal(c) == Normal(d)
  {
    RoundTrip(c);
    RoundTrip(d);
  }

  /** The text is what `NewEndpoint` built, with the peers' lines appended by `Start`. */
  lemma TextInParts(c: Conf)
    requires |c.numbers| == COUNT
    ensures Text(c) == Line(Entry("private_key", c.privateKey)) + Tail(Settings(c.numbers)) + Tail(PeersEntries(c.peers))
  {
    TailConcat(Settings(c.numbers), PeersEntries(c.peers));
    Associative(Line(Entry("private_key", c.privateKey)), Tail(Settings(c.numbers)), Tail(PeersEntries(c.peers)));
  }

  lemma Associative(a: string, b: string, c: string)
    ensures a + b + c == a + (b + c)
  {}
}
