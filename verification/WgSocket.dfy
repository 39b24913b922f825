/** Request framing on the WireGuard socket in cmd/cmd_wg_peer.go: a message ends with its first
    blank line. */
module WgSocket {
  import opened Common

  /** The newline at `i` ends a blank line. */
  predicate BlankAt(s: string, i: nat) {
    i < |s| && s[i] == '\n' && (i == 0 || s[i - 1] == '\n')
  }

  /** `s` goes on with its first blank line after `message`. */
  predicate Frames(message: string, s: string) {
    message <= s && BlankAt(s, |message|) && forall i :: 0 <= i < |message| ==> !BlankAt(s, i)
  }

  /** `sent` is `req` with just enough newlines added to end with two. */
  predicate Terminated(req: string, sent: string) {
    && req <= sent && |sent| <= |req| + 2 && (forall i :: |req| <= i < |sent| ==> sent[i] == '\n')
    && |sent| >= 2 && sent[|sent| - 1] == '\n' && sent[|sent| - 2] == '\n'
    && (|sent| > |req| ==> |sent| >= 3 && sent[|sent| - 3] != '\n')
  }

  /** The request as it is sent. The source indexes the last two bytes, so it needs two unless the
      last is not a newline. */
  method Normalise(req: string) returns (sent: string)
    requires |req| >= 2 || (|req| == 1 && req[0] != '\n')
    ensures Terminated(req, sent)
  {
    if req[|req| - 1] != '\n' {
      NewlinesAdded(req, ['\n', '\n']);
      return req + ['\n', '\n'];
    }
    var ending := req[|req| - 2..];
    if ending != ['\n', '\n'] {
      LastNotNewline(req, ending);
      NewlinesAdded(req, ['\n']);
      return req + ['\n'];
    }
    assert req[|req| - 2] == ending[0];
    return req;
  }

  /** Which newlines are added. */
  lemma TerminatedMeans(req: string, sent: string)
    requires Terminated(req, sent) && req != ""
    ensures sent == if req[|req| - 1] != '\n' then req + ['\n', '\n']
                    else if |req| >= 2 && req[|req| - 2] == '\n' then req
                    else req + ['\n']
  {
    var added := sent[|req|..];
    assert sent == req + added;
    if |added| == 1 {
      assert added == ['\n'];
    } else if |added| == 2 {
      assert added == ['\n', '\n'];
    }
  }

  lemma LastNotNewline(req: string, ending: string)
    requires |req| >= 2 && req[|req| - 1] == '\n' && ending == req[|req| - 2..] && ending != ['\n', '\n']
    ensures req[|req| - 2] != '\n'
  {
    assert ending == [req[|req| - 2], req[|req| - 1]];
  }

  lemma NewlinesAdded(req: string, added: string)
    requires added == ['\n', '\n'] || added == ['\n']
    requires |req| + |added| >= 3 && (req + added)[|req| + |added| - 3] != '\n'
    requires |added| == 1 ==> req[|req| - 1] == '\n'
    ensures Terminated(req, req + added)
  {}

  /** A framed message ends where the stream goes on with a newline right after a line, or at once,
      and no two newlines follow one another in it. */
  lemma FramesMean(message: string, s: string)
    requires Frames(message, s)
    ensures message <= s && |message| < |s| && s[|message|] == '\n'
    ensures message == "" || message[|message| - 1] == '\n'
    ensures forall i :: 0 <= i < |message| && s[i] == '\n' ==> i > 0 && s[i - 1] != '\n'
  {
    assert BlankAt(s, |message|);
    forall i: nat | i < |message| && s[i] == '\n' ensures i > 0 && s[i - 1] != '\n' {
      assert !BlankAt(s, i);
    }
  }

  /** The loop that reads lines until a blank one; `stream` is everything that arrives before the
      connection ends. */
  method ReadReply(stream: string) returns (out: Option<string>)
    ensures out.Some? ==> Frames(out.value, stream)
    ensures out.None? ==> forall i :: 0 <= i < |stream| ==> !BlankAt(stream, i)
  {
    var text, pos := "", 0;
    while true
      invariant 0 <= pos <= |stream| && text == stream[..pos]
      invariant pos == 0 || stream[pos - 1] == '\n'
      invariant forall i :: 0 <= i < pos ==> !BlankAt(stream, i)
      decreases |stream| - pos
    {
      var end := pos;
      while end < |stream| && stream[end] != '\n'
        invariant pos <= end <= |stream| && forall i :: pos <= i < end ==> stream[i] != '\n'
      {
        end := end + 1;
      }
      if end == |stream| {
        return None;
      }
      var line := stream[pos..end + 1];
      if line == "\n" {
        return Some(text);
      }
      assert line[0] == stream[pos] && |line| > 1;
      text, pos := text + line, end + 1;
    }
  }

  /** The frame of a stream is unique: so `ReadReply` returns the message whenever one was framed. */
  lemma FrameUnique(a: string, b: string, s: string)
    requires Frames(a, s) && Frames(b, s)
    ensures a == b
  {
    assert BlankAt(s, |a|) && BlankAt(s, |b|);
    assert a == s[..|a|] && b == s[..|b|];
  }

  /** A request with no blank line, except possibly its last, is framed by what is sent: a reader
      of the same protocol recovers it, with one final newline, whatever follows. */
  lemma RequestFramed(req: string, sent: string, rest: string)
    requires Terminated(req, sent) && forall i :: 0 <= i < |req| - 1 ==> !BlankAt(req, i)
    ensures Frames(sent[..|sent| - 1], sent + rest)
  {
    var (message, s) := (sent[..|sent| - 1], sent + rest);
    assert message <= s;
    forall i | 0 <= i < |message|
      ensures !BlankAt(s, i)
    {
      assert s[i] == sent[i] && (i > 0 ==> s[i - 1] == sent[i - 1]);
      if i < |req| - 1 {
        assert sent[i] == req[i] && !BlankAt(req, i);
      }
    }
  }
}
