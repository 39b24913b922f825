/** The peer listing of cmd/cmd_wg_peer.go: cutting the device's answer into one piece per peer. */
module PeerSplit {
  import opened Common
  import opened Text
  import opened IpcText

  const WORD: string := "public_key"

  // ---- trimming ------------------------------------------------------------------

  predicate Space(c: char) {
    || c == ' ' || ('\t' <= c <= '\r') || c == '\U{85}' || c == '\U{A0}'
    || c == '\U{1680}' || ('\U{2000}' <= c <= '\U{200A}') || c == '\U{2028}' || c == '\U{2029}'
    || c == '\U{202F}' || c == '\U{205F}' || c == '\U{3000}'
  }

  function TrimLeft(s: string): string {
    if s != "" && Space(s[0]) then TrimLeft(s[1..]) else s
  }

  function TrimRight(s: string): (r: string)
    ensures r <= s && (r == "" || !Space(r[|r| - 1]))
  {
    if s != "" && Space(s[|s| - 1]) then TrimRight(s[..|s| - 1]) else s
  }

  /** `strings.TrimSpace` */
  function TrimSpace(s: string): string {
    TrimRight(TrimLeft(s))
  }

  /** What white space is: the ASCII controls from tab to carriage return, the space, and the
      separators of Unicode. */
  lemma SpaceMeans(c: char)
    ensures Space(c) <==>
            (c as int) in {0x9, 0xA, 0xB, 0xC, 0xD, 0x20, 0x85, 0xA0, 0x1680, 0x2000, 0x2001, 0x2002, 0x2003, 0x2004, 0x2005,
                           0x2006, 0x2007, 0x2008, 0x2009, 0x200A, 0x2028, 0x2029, 0x202F, 0x205F, 0x3000}
  {}

  predicate Blank(s: string) {
    forall i :: 0 <= i < |s| ==> Space(s[i])
  }

  lemma {:induction false} TrimLeftMeans(s: string)
    ensures |TrimLeft(s)| <= |s| && s[|s| - |TrimLeft(s)|..] == TrimLeft(s) && Blank(s[..|s| - |TrimLeft(s)|])
    ensures TrimLeft(s) != "" ==> !Space(TrimLeft(s)[0])
  {
    if s != "" && Space(s[0]) {
      TrimLeftMeans(s[1..]);
      var n := |s[1..]| - |TrimLeft(s)|;
      assert s[..n + 1] == [s[0]] + s[1..][..n];
    }
  }

  lemma {:induction false} TrimRightMeans(s: string)
    ensures Blank(s[|TrimRight(s)|..])
  {
    if s != "" && Space(s[|s| - 1]) {
      TrimRightMeans(s[..|s| - 1]);
      var n := |TrimRight(s)|;
      assert s[n..] == s[..|s| - 1][n..] + [s[|s| - 1]];
    }
  }

  /** Trimming takes white space off both ends, and all of it. */
  lemma TrimMeans(s: string) returns (before: string, after: string)
    ensures s == before + TrimSpace(s) + after && Blank(before) && Blank(after)
    ensures var r := TrimSpace(s); r != "" ==> !Space(r[0]) && !Space(r[|r| - 1])
  {
    TrimLeftMeans(s);
    var left := TrimLeft(s);
    TrimRightMeans(left);
    before, after := s[..|s| - |left|], left[|TrimSpace(s)|..];
    assert s == before + left && left == TrimSpace(s) + after;
  }

  // ---- splitting -----------------------------------------------------------------

  /** The word stands at the start of the piece and nowhere else in it. */
  ghost predicate OnePeer(piece: string) {
    At(piece, 0, WORD) && forall i :: 0 < i <= |piece| ==> !At(piece, i, WORD)
  }

  function Concat(pieces: seq<string>): string {
    if pieces == [] then "" else pieces[0] + Concat(pieces[1..])
  }

  ghost predicate Splits(pieces: seq<string>, s: string) {
    Concat(pieces) == s && AllOnePeer(pieces)
  }

  ghost predicate AllOnePeer(pieces: seq<string>) {
    forall i :: 0 <= i < |pieces| ==> OnePeer(pieces[i])
  }

  lemma OneMorePeer(pieces: seq<string>, piece: string)
    requires AllOnePeer(pieces) && OnePeer(piece)
    ensures AllOnePeer(pieces + [piece])
  {}

  lemma {:induction false} ConcatSnoc(pieces: seq<string>, piece: string)
    ensures Concat(pieces + [piece]) == Concat(pieces) + piece
  {
    if pieces == [] {
      assert pieces + [piece] == [piece];
      assert Concat([piece]) == piece + Concat([]);
    } else {
      assert (pieces + [piece])[1..] == pieces[1..] + [piece];
      ConcatSnoc(pieces[1..], piece);
    }
  }

  /** The splitting loop of `printPeers`, on a text that starts with the word. It ends, and its
      pieces are a split of the trimmed text. */
  method SplitPeers(text: string) returns (peers: seq<string>)
    requires At(text, 0, "public_key")
    ensures peers != [] && Splits(peers, TrimSpace(text))
    ensures forall i :: 0 <= i < |peers| ==>
              At(peers[i], 0, "public_key") && forall k :: 0 < k <= |peers[i]| ==> !At(peers[i], k, "public_key")
  {
    TrimKeepsWord(text);
    peers := [];
    var s := TrimSpace(text);
    ghost var trimmed := s;
    while true
      invariant At(s, 0, WORD) && Concat(peers) + s == trimmed && AllOnePeer(peers)
      decreases |s|
    {
      var n := CutPiece(s);
      ConcatSnoc(peers, s[..n]);
      OneMorePeer(peers, s[..n]);
      MovePiece(peers, s, n);
      peers, s := peers + [s[..n]], s[n..];
      if s == "" {
        return;
      }
    }
  }

  /** One turn of the loop: where the next piece begins, or the end of the text. */
  method CutPiece(s: string) returns (n: nat)
    requires At(s, 0, WORD)
    ensures 0 < n <= |s| && OnePeer(s[..n])
    ensures n < |s| ==> At(s[n..], 0, WORD)
  {
    var idx := Index(s[1..], WORD);
    LastPieceOrNext(s, idx);
    if idx == -1 {
      assert s[..|s|] == s;
      return |s|;
    }
    return idx + 1;   // adjusted for the offset
  }

  lemma MovePiece(pieces: seq<string>, s: string, n: nat)
    requires n <= |s|
    ensures Concat(pieces + [s[..n]]) + s[n..] == Concat(pieces) + s
  {
    ConcatSnoc(pieces, s[..n]);
    Associative(Concat(pieces), s[..n], s[n..]);
    assert s == s[..n] + s[n..];
  }

  /** What the search in `s[1..]` says about `s`. */
  lemma LastPieceOrNext(s: string, idx: int)
    requires At(s, 0, WORD) && idx == Index(s[1..], WORD)
    ensures idx == -1 ==> OnePeer(s)
    ensures idx != -1 ==> 0 <= idx < |s| - 1 && OnePeer(s[..idx + 1]) && At(s[idx + 1..], 0, WORD)
  {
    forall i | 0 < i <= |s|
      ensures At(s, i, WORD) <==> At(s[1..], i - 1, WORD)
    {
      AtSuffix(s, 1, i - 1, WORD);
    }
    if idx != -1 {
      WordDoesNotOverlap(s, idx + 1);
      AtSuffix(s, idx + 1, 0, WORD);
      AtPrefix(s, idx + 1, 0, WORD);
      var piece := s[..idx + 1];
      forall i: nat | 0 < i <= |piece|
        ensures !At(piece, i, WORD)
      {
        AtPrefix(s, idx + 1, i, WORD);
      }
    }
  }

  /** Two occurrences of the word cannot overlap: its first letter occurs in it only once. */
  lemma WordDoesNotOverlap(s: string, i: nat)
    requires At(s, 0, WORD) && At(s, i, WORD) && 0 < i
    ensures i >= |WORD|
  {
    FirstLetterOnce();
    if i < |WORD| {
      Overlap(s, 0, i, WORD);
    }
  }

  lemma FirstLetterOnce()
    ensures forall k :: 0 < k < |WORD| ==> WORD[k] != WORD[0]
  {}

  lemma TrimKeepsWord(text: string)
    requires At(text, 0, WORD)
    ensures At(TrimSpace(text), 0, WORD)
  {
    assert text[0] == text[0..|WORD|][0] == 'p';
    assert TrimLeft(text) == text;
    WordStays(text);
  }

  lemma {:induction false} WordStays(s: string)
    requires At(s, 0, WORD)
    ensures At(TrimRight(s), 0, WORD)
  {
    if Space(s[|s| - 1]) {
      assert s[0..|WORD|][|WORD| - 1] == 'y';
      assert |s| > |WORD|;
      assert s[..|s| - 1][0..|WORD|] == s[0..|WORD|];
      WordStays(s[..|s| - 1]);
    }
  }

  // ---- the printed peers ---------------------------------------------------------

  /** A split is unique: there is only one way to cut a text before each occurrence of the word. */
  lemma {:induction false} SplitUnique(p: seq<string>, q: seq<string>, s: string)
    requires Splits(p, s) && Splits(q, s)
    ensures p == q
    decreases |p|
  {
    if p == [] || q == [] {
      SplitEmpty(p, s);
      SplitEmpty(q, s);
    } else {
      FirstPiece(p, s);
      FirstPiece(q, s);
      assert p[0] == q[0] by {
        if |p[0]| < |q[0]| {
          NoLongerPiece(p, q, s);
        } else if |q[0]| < |p[0]| {
          NoLongerPiece(q, p, s);
        } else {
          assert p[0] == s[..|p[0]|] && q[0] == s[..|q[0]|];
        }
      }
      SplitUnique(p[1..], q[1..], s[|p[0]|..]);
      assert p == [p[0]] + p[1..] && q == [q[0]] + q[1..];
    }
  }

  lemma SplitEmpty(p: seq<string>, s: string)
    requires Splits(p, s)
    ensures p == [] <==> s == ""
  {
    if p != [] {
      assert OnePeer(p[0]);
      assert |Concat(p)| >= |p[0]| > 0;
    }
  }

  lemma FirstPiece(p: seq<string>, s: string)
    requires Splits(p, s) && p != []
    ensures |p[0]| <= |s| && p[0] == s[..|p[0]|] && Splits(p[1..], s[|p[0]|..])
    ensures |p[0]| < |s| ==> At(s, |p[0]|, WORD)
  {
    assert s == p[0] + Concat(p[1..]);
    assert forall i :: 0 <= i < |p[1..]| ==> p[1..][i] == p[i + 1];
    if |p[0]| < |s| {
      SplitEmpty(p[1..], s[|p[0]|..]);
      var rest := Concat(p[1..]);
      assert rest == p[1] + Concat(p[1..][1..]);
      AtPrefix(rest, |p[1]|, 0, WORD);
      assert rest[..|p[1]|] == p[1];
      AtSuffix(s, |p[0]|, 0, WORD);
    }
  }

  /** If `p` cuts before `q` does, the cut is at an occurrence inside `q`'s first piece, or one
      that overlaps the next. */
  lemma NoLongerPiece(p: seq<string>, q: seq<string>, s: string)
    requires Splits(p, s) && Splits(q, s) && p != [] && q != []
    ensures |p[0]| >= |q[0]|
  {
    FirstPiece(p, s);
    FirstPiece(q, s);
    var (n, m) := (|p[0]|, |q[0]|);
    if n < m {
      AtPrefix(s, m, n, WORD);
      assert OnePeer(q[0]) && OnePeer(p[0]);
      if m < |s| {
        FirstLetterOnce();
        if m < n + |WORD| {
          Overlap(s, n, m, WORD);
        }
      }
    }
  }

  /** No value shown for a peer contains the word. */
  predicate Clean(v: string) {
    !Contains(v, WORD)
  }

  predicate CleanPeer(p: Peer) {
    && Clean(p.publicKey) && (p.endpoint.Some? ==> Clean(p.endpoint.value)) && Clean(p.presharedKey)
    && forall i :: 0 <= i < |p.allowedIPs| ==> Clean(p.allowedIPs[i])
  }

  predicate CleanPeers(peers: seq<Peer>) {
    forall i :: 0 <= i < |peers| ==> CleanPeer(peers[i])
  }

  /** A line that is not a peer's first. */
  predicate FieldLine(e: Entry) {
    !Contains(e.key, WORD) && Clean(e.value)
  }

  predicate FieldLines(es: seq<Entry>) {
    forall i :: 0 <= i < |es| ==> FieldLine(es[i])
  }

  /** The lines of a peer after the first. */
  function Fields(p: Peer): seq<Entry> {
    EndpointEntries(p) + PresharedEntries(p) + AllowedIPs(p.allowedIPs)
    + Number("persistent_keepalive_interval", p.keepalive)
  }

  /** The text of one peer, without the newline in front. */
  function Body(p: Peer): string {
    Line(Entry("public_key", p.publicKey)) + Tail(Fields(p))
  }

  /** One piece per peer; all but the last end with the newline in front of the next. */
  function Pieces(peers: seq<Peer>): seq<string> {
    if peers == [] then []
    else if |peers| == 1 then [Body(peers[0])]
    else [Body(peers[0]) + "\n"] + Pieces(peers[1..])
  }

  /** The pieces of the printed peers: each is its peer's printed text, without the newline in front
      and with the newline in front of the next. */
  lemma {:induction false} PiecesMean(peers: seq<Peer>, i: nat)
    requires i < |peers|
    ensures |Pieces(peers)| == |peers|
    ensures "\n" + Pieces(peers)[i] == Tail(PeerEntries(peers[i])) + if i == |peers| - 1 then "" else "\n"
  {
    if i > 0 {
      PiecesMean(peers[1..], i - 1);
    } else {
      PeerTail(peers[0]);
      if |peers| > 1 {
        PiecesMean(peers[1..], 0);
        Associative("\n", Body(peers[0]), "\n");
      } else {
        NothingAdded(Tail(PeerEntries(peers[0])));
      }
    }
  }

  lemma NothingAdded(text: string)
    ensures text + "" == text
  {}

  /** Joining pieces is joining texts in order. */
  lemma {:induction false} ConcatMeans(p: seq<string>, q: seq<string>, piece: string)
    ensures Concat([]) == "" && Concat([piece]) == piece && Concat(p + q) == Concat(p) + Concat(q)
  {
    assert Concat([piece]) == piece + Concat([]);
    if p == [] {
      assert p + q == q;
    } else {
      assert (p + q)[1..] == p[1..] + q;
      ConcatMeans(p[1..], q, piece);
      Associative(p[0], Concat(p[1..]), Concat(q));
    }
  }

  lemma KeysLackWord()
    ensures !Contains("endpoint", WORD) && !Contains("preshared_key", WORD)
    ensures !Contains("allowed_ip", WORD) && !Contains("persistent_keepalive_interval", WORD)
  {
    assert WORD[1] == 'u';
    HasCharacters("endpoint", WORD, 'u');
    HasCharacters("preshared_key", WORD, 'u');
    HasCharacters("allowed_ip", WORD, 'u');
    HasCharacters("persistent_keepalive_interval", WORD, 'u');
  }

  lemma {:induction false} DecimalDigits(n: nat)
    ensures forall i :: 0 <= i < |Decimal(n)| ==> '0' <= Decimal(n)[i] <= '9'
  {
    if n >= 10 {
      DecimalDigits(n / 10);
    }
  }

  lemma DecimalClean(n: nat)
    ensures Clean(Decimal(n))
  {
    DecimalDigits(n);
    assert WORD[1] == 'u';
    HasCharacters(Decimal(n), WORD, 'u');
  }

  lemma {:induction false} AllowedIPsFields(ips: seq<string>)
    requires forall i :: 0 <= i < |ips| ==> Clean(ips[i])
    ensures FieldLines(AllowedIPs(ips))
  {
    KeysLackWord();
    if ips != [] {
      AllowedIPsFields(ips[..|ips| - 1]);
    }
  }

  lemma FieldsAreFieldLines(p: Peer)
    requires CleanPeer(p)
    ensures FieldLines(Fields(p))
  {
    KeysLackWord();
    AllowedIPsFields(p.allowedIPs);
    DecimalClean(p.keepalive);
    FieldLinesConcat(EndpointEntries(p), PresharedEntries(p));
    FieldLinesConcat(EndpointEntries(p) + PresharedEntries(p), AllowedIPs(p.allowedIPs));
    FieldLinesConcat(EndpointEntries(p) + PresharedEntries(p) + AllowedIPs(p.allowedIPs),
                     Number("persistent_keepalive_interval", p.keepalive));
  }

  lemma FieldLinesConcat(es: seq<Entry>, fs: seq<Entry>)
    requires FieldLines(es) && FieldLines(fs)
    ensures FieldLines(es + fs)
  {}

  lemma {:induction false} TailLacksWord(es: seq<Entry>)
    requires FieldLines(es)
    ensures !Contains(Tail(es), WORD)
  {
    if es == [] {
      assert forall i :: 0 <= i <= 0 ==> !At("", i, WORD);
    } else {
      var init, e := es[..|es| - 1], es[|es| - 1];
      TailLacksWord(init);
      assert FieldLine(e);
      assert Line(e) == e.key + ['='] + e.value;
      ContainsAcross(e.key, '=', e.value, WORD);
      assert Tail(es) == Tail(init) + ['\n'] + Line(e);
      ContainsAcross(Tail(init), '\n', Line(e), WORD);
    }
  }

  /** A text in which the word stands only at the start keeps that when lines without it follow. */
  lemma OnePeerThenLines(a: string, b: string)
    requires OnePeer(a) && !Contains(b, WORD)
    ensures OnePeer(a + ['\n'] + b)
  {
    var s := a + ['\n'] + b;
    AcrossSeparator(a, '\n', b, WORD, 0);
    forall i: nat | 0 < i <= |s|
      ensures !At(s, i, WORD)
    {
      AcrossSeparator(a, '\n', b, WORD, i);
    }
  }

  lemma FirstLineOnePeer(key: string)
    requires !Contains(key, WORD)
    ensures OnePeer(Line(Entry("public_key", key)))
  {
    var s := WORD + ['='] + key;
    assert Line(Entry("public_key", key)) == s;
    assert At(WORD, 0, WORD);
    AcrossSeparator(WORD, '=', key, WORD, 0);
    forall i: nat | 0 < i <= |s|
      ensures !At(s, i, WORD)
    {
      AcrossSeparator(WORD, '=', key, WORD, i);
    }
  }

  lemma NothingLacksWord()
    ensures !Contains("", WORD)
  {}

  lemma BodyIsOnePeer(p: Peer)
    requires CleanPeer(p)
    ensures OnePeer(Body(p)) && OnePeer(Body(p) + "\n")
  {
    FirstLineOnePeer(p.publicKey);
    FieldsAreFieldLines(p);
    LinesAfterOnePeer(Line(Entry("public_key", p.publicKey)), Fields(p));
    NothingLacksWord();
    OnePeerThenLines(Body(p), "");
    assert Body(p) + ['\n'] + "" == Body(p) + "\n";
  }

  lemma LinesAfterOnePeer(first: string, es: seq<Entry>)
    requires OnePeer(first) && FieldLines(es)
    ensures OnePeer(first + Tail(es))
  {
    TailLacksWord(es);
    if es == [] {
      assert first + "" == first;
    } else {
      TailStarts(es);
      var lines := Tail(es)[1..];
      assert Tail(es) == "" + ['\n'] + lines;
      ContainsAcross("", '\n', lines, WORD);
      OnePeerThenLines(first, lines);
      assert first + ['\n'] + lines == first + Tail(es);
    }
  }

  lemma {:induction false} TailStarts(es: seq<Entry>)
    requires es != []
    ensures Tail(es) != "" && Tail(es)[0] == '\n'
  {
    if |es| > 1 {
      TailStarts(es[..|es| - 1]);
    }
  }

  /** The peers but the first, without their last one, and the other way round. */
  lemma FrontAndBack(peers: seq<Peer>)
    requires |peers| > 1
    ensures var (init, rest) := (peers[..|peers| - 1], peers[1..]);
            rest[..|rest| - 1] == init[1..] && rest[|rest| - 1] == peers[|peers| - 1] && init[0] == peers[0]
  {}

  lemma {:induction false} PeersEntriesFront(peers: seq<Peer>)
    requires peers != []
    ensures PeersEntries(peers) == PeerEntries(peers[0]) + PeersEntries(peers[1..])
  {
    FlatEntries(peers);
    FlatEntries(peers[1..]);
    FlatFront(PeerEntries, peers);
  }

  /** The same for any lines a peer may have. */
  function Flat(lines: Peer -> seq<Entry>, peers: seq<Peer>): seq<Entry> {
    if peers == [] then [] else Flat(lines, peers[..|peers| - 1]) + lines(peers[|peers| - 1])
  }

  lemma {:induction false} FlatEntries(peers: seq<Peer>)
    ensures PeersEntries(peers) == Flat(PeerEntries, peers)
  {
    if peers != [] {
      FlatEntries(peers[..|peers| - 1]);
    }
  }

  lemma {:induction false} FlatFront(lines: Peer -> seq<Entry>, peers: seq<Peer>)
    requires peers != []
    ensures Flat(lines, peers) == lines(peers[0]) + Flat(lines, peers[1..])
  {
    var init, last := peers[..|peers| - 1], peers[|peers| - 1];
    if |peers| == 1 {
      assert init == [] && peers[1..] == [];
    } else {
      FlatFront(lines, init);
      FrontAndBack(peers);
      assert Flat(lines, peers[1..]) == Flat(lines, init[1..]) + lines(last);
      assert lines(peers[0]) + Flat(lines, init[1..]) + lines(last) == lines(peers[0]) + (Flat(lines, init[1..]) + lines(last));
    }
  }

  lemma PeerTail(p: Peer)
    ensures Tail(PeerEntries(p)) == "\n" + Body(p)
  {
    var first := Entry("public_key", p.publicKey);
    PeerInParts(p);
    TailConcat([first], Fields(p));
    TailOne(first);
    Associative("\n", Line(first), Tail(Fields(p)));
  }

  lemma PeerInParts(p: Peer)
    ensures PeerEntries(p) == [Entry("public_key", p.publicKey)] + Fields(p)
  {}

  lemma TailOne(e: Entry)
    ensures Tail([e]) == "\n" + Line(e)
  {
    assert [e][..0] == [] && "" + "\n" == "\n";
  }

  /** The printed peers, without their first newline, are cut into one piece per peer, in order. */
  lemma {:induction false} PrintedPieces(peers: seq<Peer>)
    requires peers != [] && CleanPeers(peers)
    ensures Tail(PeersEntries(peers)) == "\n" + Concat(Pieces(peers))
    ensures AllOnePeer(Pieces(peers)) && |Pieces(peers)| == |peers|
  {
    var (p, rest) := (peers[0], peers[1..]);
    PeersEntriesFront(peers);
    TailConcat(PeerEntries(p), PeersEntries(rest));
    PeerTail(p);
    BodyIsOnePeer(p);
    if rest == [] {
      LonePiece(Body(p));
      assert Tail([]) == "";
    } else {
      PrintedPieces(rest);
      PieceThenPieces(Body(p), Pieces(rest));
    }
  }

  lemma LonePiece(body: string)
    requires OnePeer(body)
    ensures "\n" + body + "" == "\n" + Concat([body]) && AllOnePeer([body])
  {
    assert Concat([body]) == body + Concat([]);
    assert body + "" == body;
  }

  lemma PieceThenPieces(body: string, pieces: seq<string>)
    requires OnePeer(body + "\n") && AllOnePeer(pieces)
    ensures "\n" + body + ("\n" + Concat(pieces)) == "\n" + Concat([body + "\n"] + pieces)
    ensures AllOnePeer([body + "\n"] + pieces)
  {
    assert ([body + "\n"] + pieces)[1..] == pieces;
    Associative("\n" + body, "\n", Concat(pieces));
    Associative("\n", body, "\n");
    Associative("\n", body + "\n", Concat(pieces));
  }

  /** What trimming does to a text cut into pieces: it takes white space off the last one. */
  function LastTrimmed(pieces: seq<string>): seq<string> {
    if pieces == [] then [] else pieces[..|pieces| - 1] + [TrimRight(pieces[|pieces| - 1])]
  }

  lemma {:induction false} TrimRightConcat(a: string, b: string)
    requires b != "" && !Space(b[0])
    ensures TrimRight(a + b) == a + TrimRight(b)
  {
    if Space(b[|b| - 1]) {
      assert (a + b)[..|a + b| - 1] == a + b[..|b| - 1];
      TrimRightConcat(a, b[..|b| - 1]);
    }
  }

  lemma OnePeerTrims(piece: string)
    requires OnePeer(piece)
    ensures OnePeer(TrimRight(piece))
  {
    WordStays(piece);
    var r := TrimRight(piece);
    forall i: nat | 0 < i <= |r|
      ensures !At(r, i, WORD)
    {
      AtPrefix(piece, |r|, i, WORD);
    }
  }

  lemma TrimLastPiece(pieces: seq<string>)
    requires pieces != [] && AllOnePeer(pieces)
    ensures TrimRight(Concat(pieces)) == Concat(LastTrimmed(pieces)) && AllOnePeer(LastTrimmed(pieces))
  {
    var (init, last) := (pieces[..|pieces| - 1], pieces[|pieces| - 1]);
    assert pieces == init + [last] && OnePeer(last);
    assert last[0] == last[0..|WORD|][0] == 'p';
    ConcatSnoc(init, last);
    TrimRightConcat(Concat(init), last);
    ConcatSnoc(init, TrimRight(last));
    OnePeerTrims(last);
  }

  lemma FirstWord(peers: seq<Peer>)
    requires peers != [] && CleanPeers(peers)
    ensures var text := Concat(Pieces(peers));
            At(text, 0, WORD) && text[0] == 'p' && Tail(PeersEntries(peers))[1..] == text
  {
    PrintedPieces(peers);
    var text := Concat(Pieces(peers));
    FirstPiece(Pieces(peers), text);
    AtPrefix(text, |Pieces(peers)[0]|, 0, WORD);
    assert text[0] == text[0..|WORD|][0];
  }

  /** Splitting the printed lines of any non-empty peer list gives one piece per peer, in order,
      the last without trailing white space: any split of that text is that one, in particular
      what `SplitPeers` returns. */
  lemma PrintedPeersSplit(peers: seq<Peer>, split: seq<string>)
    requires peers != [] && CleanPeers(peers)
    ensures At(Tail(PeersEntries(peers))[1..], 0, WORD)
    ensures Splits(split, TrimSpace(Tail(PeersEntries(peers))[1..])) <==> split == LastTrimmed(Pieces(peers))
    ensures |LastTrimmed(Pieces(peers))| == |peers|
  {
    FirstWord(peers);
    PrintedPieces(peers);
    OnlySplit(Pieces(peers), split);
  }

  lemma OnlySplit(pieces: seq<string>, split: seq<string>)
    requires pieces != [] && AllOnePeer(pieces) && Concat(pieces) != "" && Concat(pieces)[0] == 'p'
    ensures Splits(split, TrimSpace(Concat(pieces))) <==> split == LastTrimmed(pieces)
  {
    var text := Concat(pieces);
    assert TrimLeft(text) == text;
    TrimLastPiece(pieces);
    if Splits(split, TrimSpace(text)) {
      SplitUnique(split, LastTrimmed(pieces), TrimSpace(text));
    }
  }
}
