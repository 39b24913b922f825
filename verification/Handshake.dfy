/** Both ends of the client-info exchange over two FIFO byte streams, as one transition system:
    any chunking of every read, any interleaving, faults at either end. */
module Handshake {
  import opened Common
  import opened ClientContext
  import JsonCodec

  datatype Client = Sending | Waiting | Succeeded | Failed

  /** `Serving` is a wrapped connection; after `GaveUp` the server goes on with the bare one,
      unless the fault that stopped it broke the connection. */
  datatype Server = Decoding(buffer: Bytes) | Replying | Serving | GaveUp(broken: bool)

  /** `c2s` and `s2c` are the bytes in flight; `dropped` is what the discarded decoder still held.
      The four last fields are the payload histories of both ends. */
  datatype State = State(
    c2s: Bytes, s2c: Bytes, client: Client, server: Server,
    info: Option<ClientInfo>, consumed: nat, dropped: Bytes,
    clientSent: Bytes, serverGot: Bytes, serverSent: Bytes, clientGot: Bytes)

  /** `eager` lets the client send payload without waiting for the reply; the code does not. */
  datatype Config = Config(codec: Codec, info: ClientInfo, eager: bool)

  datatype Step =
    | ClientWrites
    | ClientWriteFails(k: nat)
    | ClientReads(k: nat)
    | ClientReadFails
    | ServerReads(k: nat)
    | ServerReadFails
    | ServerReplies
    | ServerReplyFails(k: nat)
    | ClientSends(bytes: Bytes)
    | ServerReceives(k: nat)
    | ServerSends(bytes: Bytes)
    | ClientReceives(k: nat)

  const START: State := State("", "", Sending, Decoding(""), None, 0, "", "", "", "", "")

  predicate Enabled(cfg: Config, s: State, step: Step) {
    match step
    case ClientWrites => s.client.Sending?
    case ClientWriteFails(k) => s.client.Sending? && k < |cfg.codec.marshal(cfg.info)|
    case ClientReads(k) => s.client.Waiting? && 1 <= k <= 2 && k <= |s.s2c|
    case ClientReadFails => s.client.Waiting?
    case ServerReads(k) => s.server.Decoding? && 1 <= k <= |s.c2s|
    case ServerReadFails => s.server.Decoding?
    case ServerReplies => s.server.Replying?
    case ServerReplyFails(k) => s.server.Replying? && k < |OK|
    case ClientSends(_) => s.client.Succeeded? || (cfg.eager && s.client.Waiting?)
    case ServerReceives(k) => Piping(s.server) && 1 <= k <= |s.c2s|
    case ServerSends(_) => Piping(s.server)
    case ClientReceives(k) => s.client.Succeeded? && 1 <= k <= |s.s2c|
  }

  predicate Piping(server: Server) {
    server.Serving? || server == GaveUp(false)
  }

  function Next(cfg: Config, s: State, step: Step): State
    requires Enabled(cfg, s, step)
  {
    match step
    case ClientWrites => s.(c2s := s.c2s + cfg.codec.marshal(cfg.info), client := Waiting)
    case ClientWriteFails(k) => s.(c2s := s.c2s + cfg.codec.marshal(cfg.info)[..k], client := Failed)
    case ClientReads(k) => s.(s2c := s.s2c[k..], client := if s.s2c[..k] == OK then Succeeded else Failed)
    case ClientReadFails => s.(client := Failed)
    case ServerReads(k) => Decode(cfg, s.(c2s := s.c2s[k..]), s.server.buffer + s.c2s[..k])
    case ServerReadFails => s.(server := GaveUp(true), dropped := s.server.buffer)
    case ServerReplies => s.(s2c := s.s2c + OK, server := Serving)
    case ServerReplyFails(k) => s.(s2c := s.s2c + OK[..k], server := GaveUp(true))
    case ClientSends(bytes) => s.(c2s := s.c2s + bytes, clientSent := s.clientSent + bytes)
    case ServerReceives(k) => s.(c2s := s.c2s[k..], serverGot := s.serverGot + s.c2s[..k])
    case ServerSends(bytes) => s.(s2c := s.s2c + bytes, serverSent := s.serverSent + bytes)
    case ClientReceives(k) => s.(s2c := s.s2c[k..], clientGot := s.clientGot + s.s2c[..k])
  }

  /** What the decoder makes of its buffer after a read; what it holds beyond a value is lost. */
  function Decode(cfg: Config, s: State, buffer: Bytes): State {
    match cfg.codec.scan(buffer)
    case More => s.(server := Decoding(buffer))
    case Malformed => s.(server := GaveUp(false), dropped := buffer)
    case Value(info, n) =>
      s.(server := Replying, info := Some(info), consumed := n, dropped := if n <= |buffer| then buffer[n..] else "")
  }

  /** Step `n` of a sequence leads from state `n` to state `n + 1`. */
  ghost predicate Moves(cfg: Config, states: seq<State>, steps: seq<Step>, n: nat)
    requires n < |steps| && n + 1 < |states|
  {
    Enabled(cfg, states[n], steps[n]) && states[n + 1] == Next(cfg, states[n], steps[n])
  }

  ghost predicate Run(cfg: Config, states: seq<State>, steps: seq<Step>) {
    && |states| == |steps| + 1
    && states[0] == START
    && forall n :: 0 <= n < |steps| ==> Moves(cfg, states, steps, n)
  }

  lemma Extend(cfg: Config, states: seq<State>, steps: seq<Step>, step: Step)
    returns (states': seq<State>, steps': seq<Step>)
    requires Run(cfg, states, steps) && Enabled(cfg, Last(states), step)
    ensures Run(cfg, states', steps') && Last(states') == Next(cfg, Last(states), step)
  {
    states', steps' := states + [Next(cfg, Last(states), step)], steps + [step];
    forall n | 0 <= n < |steps'|
      ensures Moves(cfg, states', steps', n)
    {
      if n < |steps| {
        assert Moves(cfg, states, steps, n);
        assert states'[n] == states[n] && states'[n + 1] == states[n + 1];
      }
    }
  }

  // ---- the invariant -------------------------------------------------------------

  /** The server has decoded exactly what the client marshalled. */
  ghost predicate Decoded(cfg: Config, s: State) {
    s.info == Some(cfg.info) && s.consumed == |cfg.codec.marshal(cfg.info)| && s.dropped == ""
  }

  ghost predicate Inv(cfg: Config, s: State) {
    match s.client
    case Sending => s == START || s == START.(server := GaveUp(true))
    case Waiting =>
      && s.clientSent == "" && s.serverGot == "" && s.clientGot == ""
      && (match s.server
          case Decoding(buffer) =>
            buffer + s.c2s == cfg.codec.marshal(cfg.info) && s.c2s != "" && s.s2c == "" && s.serverSent == ""
          case Replying => Decoded(cfg, s) && s.c2s == "" && s.s2c == "" && s.serverSent == ""
          case Serving => Decoded(cfg, s) && s.c2s == "" && s.s2c == OK + s.serverSent
          case GaveUp(broken) => broken && |s.s2c| < 2 && s.serverSent == "")
    case Succeeded =>
      && s.server.Serving? && Decoded(cfg, s)
      && s.serverGot + s.c2s == s.clientSent
      && s.clientGot + s.s2c == s.serverSent
    case Failed => true
  }

  lemma InvKept(cfg: Config, s: State, step: Step)
    requires SelfDelimiting(cfg.codec) && !cfg.eager && Inv(cfg, s) && Enabled(cfg, s, step)
    ensures Inv(cfg, Next(cfg, s, step))
  {
    match s.client
    case Sending =>
    case Waiting =>
      if step.ServerReads? {
        ReadKeeps(cfg, s, step.k);
      } else {
        WaitingKept(cfg, s, step);
      }
    case Succeeded => SucceededKept(cfg, s, step);
    case Failed =>
  }

  lemma WaitingKept(cfg: Config, s: State, step: Step)
    requires !cfg.eager && Inv(cfg, s) && Enabled(cfg, s, step) && s.client.Waiting? && !step.ServerReads?
    ensures Inv(cfg, Next(cfg, s, step))
  {
    if s.server.Serving? {
      assert s.s2c[..2] == OK && s.s2c[2..] == s.serverSent;
      if step.ServerSends? {
        assert OK + s.serverSent + step.bytes == OK + (s.serverSent + step.bytes);
      }
    }
  }

  /** After the handshake the two streams carry payload only, in order. */
  lemma SucceededKept(cfg: Config, s: State, step: Step)
    requires !cfg.eager && Inv(cfg, s) && Enabled(cfg, s, step) && s.client.Succeeded?
    ensures Inv(cfg, Next(cfg, s, step))
  {
    match step
    case ServerReceives(k) => TakeFront(s.serverGot, s.c2s, k);
    case ClientReceives(k) => TakeFront(s.clientGot, s.s2c, k);
    case ClientSends(bytes) => assert s.serverGot + (s.c2s + bytes) == s.serverGot + s.c2s + bytes;
    case ServerSends(bytes) => assert s.clientGot + (s.s2c + bytes) == s.clientGot + s.s2c + bytes;
    case _ =>
  }

  lemma TakeFront(got: Bytes, stream: Bytes, k: nat)
    requires k <= |stream|
    ensures got + stream[..k] + stream[k..] == got + stream
  {}

  /** A read takes the decoder further into the encoding, or exactly to its end. */
  lemma ReadKeeps(cfg: Config, s: State, k: nat)
    requires SelfDelimiting(cfg.codec) && Inv(cfg, s) && s.client.Waiting? && Enabled(cfg, s, ServerReads(k))
    ensures Inv(cfg, Next(cfg, s, ServerReads(k)))
  {
    var m := cfg.codec.marshal(cfg.info);
    var buffer := s.server.buffer + s.c2s[..k];
    assert buffer + s.c2s[k..] == m;
    assert buffer == m[..|buffer|];
    if s.c2s[k..] == "" {
      assert m + "" == m;
      assert m[|m|..] == "";
    }
  }

  lemma {:induction false} RunKeeps(cfg: Config, states: seq<State>, steps: seq<Step>, n: nat)
    requires SelfDelimiting(cfg.codec) && !cfg.eager && Run(cfg, states, steps) && n < |states|
    ensures Inv(cfg, states[n])
  {
    if n > 0 {
      RunKeeps(cfg, states, steps, n - 1);
      assert Moves(cfg, states, steps, n - 1);
      InvKept(cfg, states[n - 1], steps[n - 1]);
    }
  }

  // ---- the results ---------------------------------------------------------------

  /** Transparency. In every run in which the client has reported success, for every chunking: the
      server has the client's info, its decoder consumed exactly the marshalled info and held
      nothing more, and what each end has received is a prefix of what the other has sent, the
      rest being still in flight. */
  lemma Transparency(cfg: Config, states: seq<State>, steps: seq<Step>, n: nat)
    requires SelfDelimiting(cfg.codec) && !cfg.eager && Run(cfg, states, steps) && n < |states|
    requires states[n].client.Succeeded?
    ensures var s := states[n];
            && s.server.Serving? && s.info == Some(cfg.info)
            && s.consumed == |cfg.codec.marshal(cfg.info)| && s.dropped == ""
            && s.serverGot + s.c2s == s.clientSent && s.serverGot <= s.clientSent
            && s.clientGot + s.s2c == s.serverSent && s.clientGot <= s.serverSent
  {
    RunKeeps(cfg, states, steps, n);
  }

  /** In particular with the encoding the program uses, for every client info. */
  lemma JsonTransparency(info: ClientInfo, states: seq<State>, steps: seq<Step>, n: nat)
    requires Run(Config(JsonCodec.JSON, info, false), states, steps) && n < |states| && states[n].client.Succeeded?
    ensures states[n].info == Some(info) && states[n].dropped == ""
    ensures states[n].serverGot + states[n].c2s == states[n].clientSent
    ensures states[n].clientGot + states[n].s2c == states[n].serverSent
  {
    JsonCodec.JsonSelfDelimiting();
    Transparency(Config(JsonCodec.JSON, info, false), states, steps, n);
  }

  /** The client reads once. Once the server has replied, that read succeeds exactly when it
      returns both bytes; a short read is a reported failure although the server is wrapped. */
  lemma ReplyNeedsOneRead(cfg: Config, states: seq<State>, steps: seq<Step>, n: nat)
    requires SelfDelimiting(cfg.codec) && !cfg.eager && Run(cfg, states, steps) && n < |steps|
    requires steps[n].ClientReads?
    ensures Enabled(cfg, states[n], steps[n])
    ensures states[n + 1].client.Succeeded? <==> states[n].server.Serving? && steps[n].k == 2
  {
    RunKeeps(cfg, states, steps, n);
    assert Moves(cfg, states, steps, n);
    var s := states[n];
    if s.server.Serving? {
      assert s.s2c[..2] == OK;
    }
  }

  /** From a waiting, unbroken state a few steps reach success: the server reads what is there, it
      replies, and the client reads the reply, as far as each has not happened yet. */
  function ToSuccess(s: State): seq<Step> {
    match s.server
    case Decoding(_) => [ServerReads(|s.c2s|), ServerReplies, ClientReads(2)]
    case Replying => [ServerReplies, ClientReads(2)]
    case _ => [ClientReads(2)]
  }

  /** The steps can be taken one after the other from `s`, and lead to `s'`. */
  ghost predicate Leads(cfg: Config, s: State, steps: seq<Step>, s': State)
    decreases |steps|
  {
    if steps == [] then s' == s
    else Enabled(cfg, s, steps[0]) && Leads(cfg, Next(cfg, s, steps[0]), steps[1..], s')
  }

  lemma ReplyRead(cfg: Config, s: State) returns (s': State)
    requires s.client.Waiting? && s.server.Serving? && OK <= s.s2c
    ensures Leads(cfg, s, [ClientReads(2)], s') && s'.client.Succeeded?
  {
    assert s.s2c[..2] == OK;
    s' := Next(cfg, s, ClientReads(2));
    assert [ClientReads(2)][1..] == [];
  }

  lemma ReplySent(cfg: Config, s: State) returns (s': State)
    requires s.client.Waiting? && s.server.Replying? && s.s2c == ""
    ensures Leads(cfg, s, [ServerReplies, ClientReads(2)], s') && s'.client.Succeeded?
  {
    var mid := Next(cfg, s, ServerReplies);
    assert mid.s2c == OK;
    s' := ReplyRead(cfg, mid);
    assert [ServerReplies, ClientReads(2)][1..] == [ClientReads(2)];
  }

  /** The exchange never gets stuck: as long as the client waits and nothing has broken, a finite
      sequence of the ends' own steps completes it. */
  lemma NeverStuck(cfg: Config, states: seq<State>, steps: seq<Step>, n: nat) returns (s': State)
    requires SelfDelimiting(cfg.codec) && !cfg.eager && Run(cfg, states, steps) && n < |states|
    requires states[n].client.Waiting? && !states[n].server.GaveUp?
    ensures Leads(cfg, states[n], ToSuccess(states[n]), s') && s'.client.Succeeded?
  {
    RunKeeps(cfg, states, steps, n);
    var s := states[n];
    match s.server
    case Decoding(buffer) =>
      var k := |s.c2s|;
      var mid := Next(cfg, s, ServerReads(k));
      assert s.c2s[..k] == s.c2s;
      assert buffer + s.c2s == cfg.codec.marshal(cfg.info) + "";
      s' := ReplySent(cfg, mid);
      assert ToSuccess(s)[1..] == [ServerReplies, ClientReads(2)];
    case Replying => s' := ReplySent(cfg, s);
    case Serving => s' := ReplyRead(cfg, s);
  }

  /** Waiting for the reply is what protects the payload: without it, any payload that reaches the
      decoder in one read with the info is lost, although both ends report success. */
  lemma EagerClientLoses(cfg: Config, payload: Bytes) returns (states: seq<State>, steps: seq<Step>)
    requires SelfDelimiting(cfg.codec) && cfg.eager && payload != ""
    ensures Run(cfg, states, steps)
    ensures var s := Last(states);
            && s.client.Succeeded? && s.server.Serving? && s.info == Some(cfg.info)
            && s.clientSent == payload && s.serverGot == "" && s.c2s == ""
  {
    var m := cfg.codec.marshal(cfg.info);
    states, steps := [START], [];
    states, steps := Extend(cfg, states, steps, ClientWrites);
    assert Last(states) == START.(c2s := m, client := Waiting) by {
      assert "" + m == m;
    }
    states, steps := Extend(cfg, states, steps, ClientSends(payload));
    assert Last(states) == START.(c2s := m + payload, client := Waiting, clientSent := payload) by {
      assert "" + payload == payload;
    }
    states, steps := ReadAll(cfg, states, steps, payload);
    states, steps := ReplyAndRead(cfg, states, steps);
  }

  /** The server replies and the client reads the reply, nothing else being in flight. */
  lemma ReplyAndRead(cfg: Config, before: seq<State>, beforeSteps: seq<Step>) returns (states: seq<State>, steps: seq<Step>)
    requires Run(cfg, before, beforeSteps)
    requires Last(before).client.Waiting? && Last(before).server.Replying? && Last(before).s2c == ""
    ensures Run(cfg, states, steps) && Last(states) == Last(before).(client := Succeeded, server := Serving)
  {
    states, steps := Extend(cfg, before, beforeSteps, ServerReplies);
    assert Last(states).s2c == OK && OK[..2] == OK && OK[2..] == "";
    states, steps := Extend(cfg, states, steps, ClientReads(2));
  }

  /** One read that takes the info and the payload behind it. */
  lemma ReadAll(cfg: Config, before: seq<State>, beforeSteps: seq<Step>, payload: Bytes)
    returns (states: seq<State>, steps: seq<Step>)
    requires SelfDelimiting(cfg.codec) && Run(cfg, before, beforeSteps) && Last(before).server == Decoding("")
    requires Last(before).c2s == cfg.codec.marshal(cfg.info) + payload && payload != ""
    ensures Run(cfg, states, steps)
    ensures Last(states) == Last(before).(c2s := "", server := Replying, info := Some(cfg.info),
                                          consumed := |cfg.codec.marshal(cfg.info)|, dropped := payload)
  {
    var s := Last(before);
    assert s.server.buffer + s.c2s[..|s.c2s|] == s.c2s;
    states, steps := Extend(cfg, before, beforeSteps, ServerReads(|s.c2s|));
  }
}
