/** The vocabulary the codec and the session share: WebRTC payloads and the readings of a frame. */
module Signals {
  import opened Wrappers

  type Int64 = n: int | -0x8000_0000_0000_0000 <= n < 0x8000_0000_0000_0000

  /** The WebRTC payload; every field but the type is left out of the text when empty or zero. */
  datatype Inner = Inner(kind: string, sdp: string, candidate: string, sdpMid: string, sdpMLineIndex: Int64)

  /** What a message hook sees in a frame. */
  datatype Verdict =
    | Plain                                   // forwarded, nothing learned
    | KitInfo(id: int)                        // Kit announces its own peer id
    | BrowserInfo(id: int)                    // Kit announces the id it gave the browser
    | AckFrame                                // the browser acknowledges a frame
    | Signal(from: int, to: Option<int>, inner: Inner, ackid: Option<int>)

  /** The payload types a hook takes for itself. */
  predicate Consumed(v: Verdict) {
    v.Signal? && (v.inner.kind == "offer" || v.inner.kind == "answer" || v.inner.kind == "candidate")
  }

  predicate IsOffer(v: Verdict) { v.Signal? && v.inner.kind == "offer" }

  /**
   How frames are read and built. The session is defined for any such codec;
   Hooks.NVST is the one it runs with.
   */
  datatype Codec = Codec(
    kit: string -> Verdict,                   // a frame that came from Kit
    client: string -> Verdict,                // a frame that came from the browser
    ackText: int -> string,
    kitText: (int, int, Inner) -> string,     // from, to, payload
    browserText: (int, int, Inner) -> string) // ackid, from, payload
  {
    predicate KitPasses(data: string) { !Consumed(kit(data)) }

    predicate ClientPasses(data: string) { !client(data).AckFrame? && !Consumed(client(data)) }

    /** The ackid the gateway owes Kit for a frame the browser will never see. */
    function OwedAck(data: string): Option<int> {
      if Consumed(kit(data)) then kit(data).ackid else None
    }
  }
}
