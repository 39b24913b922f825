/** The client-info exchange of tracker/clientcontext/tracker.go: what the two ends do on their
    own connection. Bytes are characters. */
module ClientContext {
  import opened Common

  type Bytes = string

  datatype ClientInfo = ClientInfo(
    deviceID: string, platform: string, isPro: bool, countryCode: string, version: string)

  /** What a streaming decoder finds at the head of its buffer. */
  datatype Scan = More | Value(info: ClientInfo, length: nat) | Malformed

  /** `json.Marshal` and `json.Decoder`. */
  datatype Codec = Codec(marshal: ClientInfo -> Bytes, scan: Bytes -> Scan)

  /** An encoding is non-empty, is recognised whatever follows it, and not before it is complete. */
  ghost predicate SelfDelimiting(c: Codec) {
    && (forall info :: c.marshal(info) != "")
    && (forall info, rest :: c.scan(c.marshal(info) + rest) == Value(info, |c.marshal(info)|))
    && (forall info, k :: 0 <= k < |c.marshal(info)| ==> c.scan(c.marshal(info)[..k]) == More)
  }

  const OK: Bytes := "OK"

  /** One end of a connection: the bytes still to arrive before the end of the stream, the bytes
      written so far, and whether a write fails. */
  class Conn {
    var inbound: Bytes
    var outbound: Bytes
    const broken: bool

    constructor (inbound: Bytes, broken: bool)
      ensures this.inbound == inbound && outbound == "" && this.broken == broken
    {
      this.inbound, outbound, this.broken := inbound, "", broken;
    }

    /** A read returns any non-empty part of what fits, or the end of the stream. */
    method Read(max: nat) returns (chunk: Bytes)
      requires max > 0
      modifies this`inbound
      ensures chunk + inbound == old(inbound) && |chunk| <= max
      ensures chunk == "" <==> old(inbound) == ""
    {
      if inbound == "" {
        return "";
      }
      var n: nat :| 1 <= n <= max && n <= |inbound|;
      chunk, inbound := inbound[..n], inbound[n..];
    }

    method Write(bytes: Bytes) returns (ok: bool)
      modifies this`outbound
      ensures ok <==> !broken
      ensures outbound == if ok then old(outbound) + bytes else old(outbound)
    {
      if broken {
        return false;
      }
      outbound := outbound + bytes;
      return true;
    }
  }

  /** The last of the reads that make up `read` began at `m`, when no value was complete yet. */
  ghost predicate LastRead(codec: Codec, read: Bytes, bufferSize: nat, m: nat) {
    m < |read| <= m + bufferSize && (m == 0 || codec.scan(read[..m]) == More)
  }

  /** `readConn.readInfo`. `read` is everything the decoder took from the connection; it is dropped
      with whatever it holds beyond the value. */
  method ReadInfo(conn: Conn, codec: Codec, bufferSize: nat) returns (info: Option<ClientInfo>, ghost read: Bytes)
    requires bufferSize > 0
    modifies conn`inbound, conn`outbound
    ensures read + conn.inbound == old(conn.inbound)
    ensures info.Some? <==> codec.scan(read).Value? && !conn.broken && read != ""
    ensures info.Some? ==> info.value == codec.scan(read).info && conn.outbound == old(conn.outbound) + "OK"
    ensures info.None? ==> conn.outbound == old(conn.outbound)
    ensures info.None? && read != "" && codec.scan(read).More? ==> conn.inbound == ""
    ensures read != "" ==> exists m :: LastRead(codec, read, bufferSize, m)
  {
    var buffer := "";
    read := "";
    while true
      invariant buffer == read && read + conn.inbound == old(conn.inbound)
      invariant conn.outbound == old(conn.outbound) && (read != "" ==> codec.scan(read) == More)
      invariant read != "" ==> exists m :: LastRead(codec, read, bufferSize, m)
      decreases |conn.inbound|
    {
      var chunk := conn.Read(bufferSize);
      if chunk == "" {
        return None, read;
      }
      ghost var m := |read|;
      assert (read + chunk)[..m] == read;
      buffer, read := buffer + chunk, read + chunk;
      assert LastRead(codec, read, bufferSize, m);
      match codec.scan(buffer)
      case More =>
      case Malformed => return None, read;
      case Value(i, _) =>
        var ok := conn.Write(OK);
        if !ok {
          return None, read;
        }
        return Some(i), read;
    }
  }

  lemma ReadPastInfo(read: Bytes, left: Bytes, m: Bytes, rest: Bytes)
    requires read + left == m + rest
    ensures if |read| < |m| then read == m[..|read|] && left != ""
            else read == m + read[|m|..] && read[|m|..] + left == rest && read[..|m|] == m
  {
    assert read == (read + left)[..|read|] == (m + rest)[..|read|];
    if |read| >= |m| {
      assert m == (read + left)[..|m|] == read[..|m|];
      assert read[|m|..] + left == (read + left)[|m|..] == rest;
    }
  }

  /** Against a client that writes its info first, for every chunking: the decoder stops with that
      info, having consumed exactly its encoding; what it drops is the start of whatever the client
      sent after it, less than one buffer of it, and nothing when the client sent nothing more. */
  lemma ReadInfoExact(codec: Codec, bufferSize: nat, info: ClientInfo, rest: Bytes, read: Bytes, left: Bytes)
    requires SelfDelimiting(codec) && read + left == codec.marshal(info) + rest
    requires read != "" && exists m :: LastRead(codec, read, bufferSize, m)
    requires codec.scan(read) != More || left == ""
    ensures codec.scan(read) == Value(info, |codec.marshal(info)|)
    ensures |codec.marshal(info)| <= |read| && read[..|codec.marshal(info)|] == codec.marshal(info)
    ensures read[|codec.marshal(info)|..] + left == rest
    ensures |read| - |codec.marshal(info)| < bufferSize
  {
    var m := codec.marshal(info);
    ReadPastInfo(read, left, m, rest);
    forall j | |m| <= j <= |read|
      ensures codec.scan(read[..j]) == Value(info, |m|)
    {
      assert read[..j] == m + read[|m|..j];
    }
    assert read[..|read|] == read;
    var k: nat :| LastRead(codec, read, bufferSize, k);
  }

  /** `writeConn.sendInfo`: the info is written, then one read of at most two bytes must be `OK`. */
  method SendInfo(conn: Conn, codec: Codec, info: ClientInfo) returns (ok: bool)
    modifies conn`inbound, conn`outbound
    ensures conn.outbound == if conn.broken then old(conn.outbound) else old(conn.outbound) + codec.marshal(info)
    ensures ok ==> !conn.broken && old(conn.inbound) == "OK" + conn.inbound
    ensures !ok ==> conn.broken || |old(conn.inbound)| - |conn.inbound| < 2 || old(conn.inbound)[..2] != "OK"
    ensures |old(conn.inbound)| - 2 <= |conn.inbound| <= |old(conn.inbound)|
  {
    var written := conn.Write(codec.marshal(info));
    if !written {
      return false;
    }
    var response := conn.Read(2);
    return response == OK;
  }
}
