/** The token exchange that hands a connection over to the mux: one frame each
    way, read unbuffered, so that neither side swallows a byte of what follows. */
module Handshake {
  import opened Frames

  function AuthFrame(token: Bytes): Frame { Frame(AUTH, 0, token) }

  const AUTH_OK_FRAME: Frame := Frame(AUTH_OK, 0, [])

  /** The relay accepts exactly an AUTH frame carrying its token. */
  predicate Accepts(reading: Reading, token: Bytes) {
    reading.Got? && reading.frame.ty == AUTH && reading.frame.payload == token
  }

  method Authenticate(r: Source, w: Sink, token: Bytes) returns (ok: bool)
    modifies r, w
    ensures r.data == Decode(old(r.data)).rest
    ensures !Accepts(Decode(old(r.data)), token) ==> !ok && w.data == old(w.data)
    ensures ok <==> Accepts(Decode(old(r.data)), token) && HEADER_SIZE <= old(w.room)
    ensures ok ==> w.data == old(w.data) + Encode(Frame(AUTH_OK, 0, []))
    ensures !ok && Accepts(Decode(old(r.data)), token) ==>
      w.data == old(w.data) + Encode(Frame(AUTH_OK, 0, []))[..old(w.room)] && w.room == 0
  {
    var reading := ReadFrame(r);
    if !Accepts(reading, token) {
      return false;
    }
    ok := WriteFrame(w, AUTH_OK_FRAME);
  }

  /** The client's half; `r` holds what the relay has sent by the time it is read. */
  method AuthenticateTo(r: Source, w: Sink, token: Bytes) returns (ok: bool)
    modifies r, w
    ensures ok <==> |token| <= MAX_PAYLOAD && HEADER_SIZE + |token| <= old(w.room)
                    && Decode(old(r.data)).Got? && Decode(old(r.data)).frame.ty == AUTH_OK
    ensures |token| > MAX_PAYLOAD ==> w.data == old(w.data) && r.data == old(r.data)
    ensures |token| <= MAX_PAYLOAD ==>
      var auth := Encode(Frame(AUTH, 0, token));
      if |auth| <= old(w.room) then w.data == old(w.data) + auth && r.data == Decode(old(r.data)).rest
      else w.data == old(w.data) + auth[..old(w.room)] && r.data == old(r.data)
  {
    var sent := WriteFrame(w, AuthFrame(token));
    if !sent {
      return false;
    }
    var reading := ReadFrame(r);
    ok := reading.Got? && reading.frame.ty == AUTH_OK;
  }

  /** Whatever either mux goes on to send, and however early it sends it, the other
      end's mux starts on its first frame: the relay admits a client exactly when
      the tokens agree, and what both have left to read is the peer's mux stream. */
  lemma HandshakeBoundary(clientToken: Bytes, relayToken: Bytes, up: seq<Frame>, down: seq<Frame>)
    requires |clientToken| <= MAX_PAYLOAD && AllValid(up) && AllValid(down)
    ensures var atRelay := Decode(Encode(Frame(AUTH, 0, clientToken)) + EncodeAll(up));
      && (Accepts(atRelay, relayToken) <==> clientToken == relayToken)
      && DecodeAll(atRelay.rest) == (up, Eof)
    ensures var atClient := Decode(Encode(Frame(AUTH_OK, 0, [])) + EncodeAll(down));
      atClient.Got? && atClient.frame.ty == AUTH_OK && DecodeAll(atClient.rest) == (down, Eof)
  {
    DecodeEncoded(Frame(AUTH, 0, clientToken), EncodeAll(up));
    DecodeEncoded(Frame(AUTH_OK, 0, []), EncodeAll(down));
    assert EncodeAll(up) + [] == EncodeAll(up) && EncodeAll(down) + [] == EncodeAll(down);
    DecodePrefix(up, []);
    DecodePrefix(down, []);
  }
}
