/** Remote tracks on their way from Kit's peer to the browser's: the bounded channel and the transceivers. */
module Upstream {
  import opened Wrappers

  type Track = nat

  /** `a` is `b` with some elements left out. */
  predicate Subsequence<T(==)>(a: seq<T>, b: seq<T>) {
    if a == [] then true
    else if b == [] then false
    else if a[|a| - 1] == b[|b| - 1] then Subsequence(a[..|a| - 1], b[..|b| - 1])
    else Subsequence(a, b[..|b| - 1])
  }

  lemma {:induction false} SubsequenceOfInit<T>(a: seq<T>, b: seq<T>)
    requires a != [] && Subsequence(a, b)
    ensures Subsequence(a[..|a| - 1], b)
    decreases |a| + |b|, 0
  {
    var c, d, x := a[..|a| - 1], b[..|b| - 1], b[|b| - 1];
    assert b == d + [x];
    if a[|a| - 1] != x {
      SubsequenceOfInit(a, d);
    }
    SubsequenceOfLonger(c, d, x);
  }

  lemma {:induction false} SubsequenceOfLonger<T>(a: seq<T>, b: seq<T>, x: T)
    requires Subsequence(a, b)
    ensures Subsequence(a, b + [x])
    decreases |a| + |b|, 1
  {
    var more := b + [x];
    assert more[..|b|] == b && more[|more| - 1] == x;
    if a != [] && a[|a| - 1] == x {
      SubsequenceOfInit(a, b);
    }
  }

  lemma SubsequenceOfBoth<T>(a: seq<T>, b: seq<T>, x: T)
    requires Subsequence(a, b)
    ensures Subsequence(a + [x], b + [x])
  {
    assert (a + [x])[..|a|] == a && (b + [x])[..|b|] == b;
  }

  // -------------------------------------------------------------------- the channel

  const CAPACITY := 4

  datatype Announcement = Queued | Dropped | Panics

  /** The tracks channel. `arrived`, `taken` and `dropped` are its history. */
  class KitPeer {
    var tracks: seq<Track>
    var closed: bool
    ghost var arrived: seq<Track>
    ghost var taken: seq<Track>
    ghost var dropped: nat

    ghost predicate Valid()
      reads this
    {
      && |tracks| <= CAPACITY
      && Subsequence(taken + tracks, arrived)
      && |arrived| == |taken| + |tracks| + dropped
    }

    constructor ()
      ensures Valid() && tracks == [] && !closed && arrived == [] && taken == [] && dropped == 0
    {
      tracks, closed := [], false;
      arrived, taken, dropped := [], [], 0;
    }

    /** A non-blocking send: dropped when the channel is full. A send on a closed channel panics. */
    method OnTrack(t: Track) returns (r: Announcement)
      requires Valid()
      modifies this
      ensures r == if old(closed) then Panics else if |old(tracks)| < 4 then Queued else Dropped
      ensures !r.Panics? ==> Valid() && arrived == old(arrived) + [t] && closed == old(closed) && taken == old(taken)
      ensures r.Queued? ==> tracks == old(tracks) + [t] && dropped == old(dropped)
      ensures r.Dropped? ==> tracks == old(tracks) && |tracks| == 4 && dropped == old(dropped) + 1
      ensures r.Panics? ==> tracks == old(tracks) && closed && arrived == old(arrived) && taken == old(taken) && dropped == old(dropped)
    {
      if closed {
        return Panics;
      }
      ghost var held := taken + tracks;
      if |tracks| < CAPACITY {
        SubsequenceOfBoth(held, arrived, t);
        tracks := tracks + [t];
        assert taken + tracks == held + [t];
        r := Queued;
      } else {
        SubsequenceOfLonger(held, arrived, t);
        dropped := dropped + 1;
        r := Dropped;
      }
      arrived := arrived + [t];
    }

    /** The range loop's receive: the oldest track; None when the channel is empty. */
    method Receive() returns (t: Option<Track>)
      requires Valid()
      modifies this`tracks, this`taken
      ensures Valid()
      ensures old(tracks) == [] ==> t == None && tracks == [] && taken == old(taken)
      ensures old(tracks) != [] ==> t == Some(old(tracks)[0]) && tracks == old(tracks)[1..] && taken == old(taken) + [old(tracks)[0]]
    {
      if tracks == [] {
        return None;
      }
      ghost var held := taken + tracks;
      t := Some(tracks[0]);
      taken := taken + [tracks[0]];
      tracks := tracks[1..];
      assert taken + tracks == held;
    }

    /** Idempotent: only the first call closes. */
    method Close() returns (first: bool)
      requires Valid()
      modifies this`closed
      ensures Valid() && closed && first == !old(closed)
    {
      first := !closed;
      closed := true;
    }
  }

  lemma {:induction false} SubsequenceIsShorter<T>(a: seq<T>, b: seq<T>)
    requires Subsequence(a, b)
    ensures |a| <= |b|
  {
    if a != [] {
      if a[|a| - 1] == b[|b| - 1] {
        SubsequenceIsShorter(a[..|a| - 1], b[..|b| - 1]);
      } else {
        SubsequenceIsShorter(a, b[..|b| - 1]);
      }
    }
  }

  lemma {:induction false} FullSubsequence<T>(a: seq<T>, b: seq<T>)
    requires Subsequence(a, b) && |a| == |b|
    ensures a == b
  {
    if a != [] {
      var a0, b0 := a[..|a| - 1], b[..|b| - 1];
      if a[|a| - 1] == b[|b| - 1] {
        FullSubsequence(a0, b0);
        assert a == a0 + [a[|a| - 1]] && b == b0 + [b[|b| - 1]];
      } else {
        SubsequenceIsShorter(a, b0);
        assert false;
      }
    }
  }

  lemma {:induction false} PrefixIsSubsequence<T>(a: seq<T>, more: seq<T>, b: seq<T>)
    requires Subsequence(a + more, b)
    ensures Subsequence(a, b)
    decreases |more|
  {
    if more == [] {
      assert a + more == a;
    } else {
      SubsequenceOfInit(a + more, b);
      assert (a + more)[..|a + more| - 1] == a + more[..|more| - 1];
      PrefixIsSubsequence(a, more[..|more| - 1], b);
    }
  }

  lemma {:induction false} SubsequenceTransitive<T>(a: seq<T>, b: seq<T>, c: seq<T>)
    requires Subsequence(a, b) && Subsequence(b, c)
    ensures Subsequence(a, c)
    decreases |b| + |c|
  {
    if a != [] {
      var b0, c0, x := b[..|b| - 1], c[..|c| - 1], c[|c| - 1];
      assert c == c0 + [x];
      if b[|b| - 1] != x {
        SubsequenceTransitive(a, b, c0);
        SubsequenceOfLonger(a, c0, x);
      } else if a[|a| - 1] != x {
        SubsequenceTransitive(a, b0, c0);
        SubsequenceOfLonger(a, c0, x);
      } else {
        SubsequenceTransitive(a[..|a| - 1], b0, c0);
      }
    }
  }

  /** As long as nothing was dropped, what was handed on and what is queued are the arrivals, all of them and in order. */
  lemma NothingDropped(p: KitPeer)
    requires p.Valid() && p.dropped == 0
    ensures p.taken + p.tracks == p.arrived
  {
    FullSubsequence(p.taken + p.tracks, p.arrived);
  }

  // ---------------------------------------------------------------- the transceivers

  datatype Media = Audio | Video

  /** A transceiver of the browser's peer; `track` is what its sender carries, None without a sender. */
  datatype Transceiver = Transceiver(kind: Media, track: Option<Track>)

  predicate Usable(t: Transceiver, kind: Media) { t.kind == kind && t.track.Some? }

  /** The first usable transceiver of this kind, or the length. */
  function FirstUsable(ts: seq<Transceiver>, kind: Media): (n: nat)
    ensures n <= |ts|
    ensures n < |ts| ==> Usable(ts[n], kind)
    ensures forall i :: 0 <= i < n ==> !Usable(ts[i], kind)
  {
    if ts == [] || Usable(ts[0], kind) then 0 else 1 + FirstUsable(ts[1..], kind)
  }

  datatype Attach = Attach(kind: Media, track: Track, replaceOk: bool, addOk: bool)

  function Attached(ts: seq<Transceiver>, a: Attach): seq<Transceiver> {
    var n := FirstUsable(ts, a.kind);
    if n < |ts| then (if a.replaceOk then ts[n := Transceiver(a.kind, Some(a.track))] else ts)
    else if a.addOk then ts + [Transceiver(a.kind, Some(a.track))] else ts
  }

  /** Whether the media stack lets the track on: replaced where there is a sender of its kind, added where there is none. */
  predicate TakenOn(ts: seq<Transceiver>, a: Attach) { if FirstUsable(ts, a.kind) < |ts| then a.replaceOk else a.addOk }

  /** The browser's peer; replaceOrAddTrack walks its transceivers. */
  class BrowserPeer {
    var transceivers: seq<Transceiver>

    constructor (ts: seq<Transceiver>)
      ensures transceivers == ts
    {
      transceivers := ts;
    }

    /** Replaces the track of the first usable transceiver, or adds one; the media stack decides whether that works. */
    method ReplaceOrAddTrack(kind: Media, track: Track, replaceOk: bool, addOk: bool) returns (ok: bool)
      modifies this
      ensures transceivers == Attached(old(transceivers), Attach(kind, track, replaceOk, addOk))
      ensures ok == TakenOn(old(transceivers), Attach(kind, track, replaceOk, addOk))
    {
      for i := 0 to |transceivers|
        invariant transceivers == old(transceivers)
        invariant forall j :: 0 <= j < i ==> !Usable(transceivers[j], kind)
      {
        if transceivers[i].kind != kind {
          continue;
        }
        if transceivers[i].track.None? {
          continue;
        }
        if replaceOk {
          transceivers := transceivers[i := Transceiver(kind, Some(track))];
        }
        return replaceOk;
      }
      if addOk {
        transceivers := transceivers + [Transceiver(kind, Some(track))];
      }
      return addOk;
    }
  }

  predicate HasSender(t: Transceiver, kind: Media) { t.kind == kind && t.track.Some? }

  /** The i-th transceiver is the first of its kind that has a sender. */
  predicate FirstWithSender(ts: seq<Transceiver>, kind: Media, i: nat) {
    i < |ts| && HasSender(ts[i], kind) && forall j :: 0 <= j < i ==> !HasSender(ts[j], kind)
  }

  /** Only the first transceiver of the kind that has a sender is touched; without one a transceiver is added behind all others. */
  lemma AttachTouchesOne(ts: seq<Transceiver>, a: Attach)
    ensures forall i: nat :: FirstWithSender(ts, a.kind, i) ==>
      TakenOn(ts, a) == a.replaceOk && Attached(ts, a) == if a.replaceOk then ts[i := Transceiver(a.kind, Some(a.track))] else ts
    ensures (forall i :: 0 <= i < |ts| ==> !HasSender(ts[i], a.kind)) ==>
      TakenOn(ts, a) == a.addOk && Attached(ts, a) == if a.addOk then ts + [Transceiver(a.kind, Some(a.track))] else ts
  {
    hide FirstUsable;
    var n := FirstUsable(ts, a.kind);
    assert forall i :: 0 <= i < n ==> !Usable(ts[i], a.kind);
    assert n < |ts| ==> FirstWithSender(ts, a.kind, n);
  }

  function AttachAll(ts: seq<Transceiver>, attaches: seq<Attach>): seq<Transceiver> {
    if attaches == [] then ts
    else Attached(AttachAll(ts, attaches[..|attaches| - 1]), attaches[|attaches| - 1])
  }

  /** The same history on a table with one entry a kind. */
  function Carried(start: map<Media, Track>, attaches: seq<Attach>): map<Media, Track> {
    if attaches == [] then start
    else
      var before, a := Carried(start, attaches[..|attaches| - 1]), attaches[|attaches| - 1];
      if (if a.kind in before then a.replaceOk else a.addOk) then before[a.kind := a.track] else before
  }

  /** One sender a kind, carrying what the table says. */
  predicate OnePerKind(ts: seq<Transceiver>, table: map<Media, Track>) {
    && (forall i, j :: 0 <= i < j < |ts| ==> ts[i].kind != ts[j].kind)
    && (forall i :: 0 <= i < |ts| ==> ts[i].kind in table && ts[i].track == Some(table[ts[i].kind]))
    && (forall k :: k in table ==> exists i :: 0 <= i < |ts| && ts[i].kind == k)
  }

  lemma HasKindAt(ts: seq<Transceiver>, after: seq<Transceiver>, k: Media)
    requires exists i :: 0 <= i < |ts| && ts[i].kind == k
    requires |ts| <= |after| && forall i :: 0 <= i < |ts| ==> after[i].kind == ts[i].kind
    ensures exists i :: 0 <= i < |after| && after[i].kind == k
  {
    var i :| 0 <= i < |ts| && ts[i].kind == k;
    assert after[i].kind == k;
  }

  lemma AttachKeepsOnePerKind(ts: seq<Transceiver>, table: map<Media, Track>, a: Attach)
    requires OnePerKind(ts, table)
    ensures OnePerKind(Attached(ts, a), if (if a.kind in table then a.replaceOk else a.addOk) then table[a.kind := a.track] else table)
  {
    var n := FirstUsable(ts, a.kind);
    var after := Attached(ts, a);
    hide FirstUsable;
    if a.kind in table {
      var i :| 0 <= i < |ts| && ts[i].kind == a.kind;
      assert Usable(ts[i], a.kind) && i == n;
    } else {
      assert n == |ts|;
      assert a.addOk ==> after[|ts|].kind == a.kind;
    }
    forall k | k in table
      ensures exists j :: 0 <= j < |after| && after[j].kind == k
    {
      HasKindAt(ts, after, k);
    }
  }

  /**
   From a peer with at most one sender a kind (the placeholder, or nothing), any
   run of attachments keeps one sender a kind, carrying the last track that was
   accepted for it.
   */
  lemma {:induction false} OneSenderPerKind(ts: seq<Transceiver>, start: map<Media, Track>, attaches: seq<Attach>)
    requires OnePerKind(ts, start)
    ensures OnePerKind(AttachAll(ts, attaches), Carried(start, attaches))
  {
    if attaches != [] {
      var init := attaches[..|attaches| - 1];
      OneSenderPerKind(ts, start, init);
      AttachKeepsOnePerKind(AttachAll(ts, init), Carried(start, init), attaches[|attaches| - 1]);
    }
  }

  // ----------------------------------------------------------- from Kit to the browser

  function Tracks(attaches: seq<Attach>): seq<Track> {
    seq(|attaches|, i requires 0 <= i < |attaches| => attaches[i].track)
  }

  /** The attachments that succeed, in order. */
  function Accepted(start: map<Media, Track>, attaches: seq<Attach>): seq<Attach> {
    if attaches == [] then []
    else
      var init, a := attaches[..|attaches| - 1], attaches[|attaches| - 1];
      var before := Carried(start, init);
      Accepted(start, init) + if (if a.kind in before then a.replaceOk else a.addOk) then [a] else []
  }

  /** The last track of a kind, None without one. */
  function LastOf(attaches: seq<Attach>, kind: Media): Option<Track> {
    if attaches == [] then None
    else if attaches[|attaches| - 1].kind == kind then Some(attaches[|attaches| - 1].track)
    else LastOf(attaches[..|attaches| - 1], kind)
  }

  /** The last track accepted for a kind, or what it carried at the start without one. */
  predicate IsLastAccepted(start: map<Media, Track>, attaches: seq<Attach>, kind: Media, track: Track) {
    match LastOf(Accepted(start, attaches), kind)
    case Some(last) => track == last
    case None => kind in start && track == start[kind]
  }

  lemma {:induction false} CarriedIsLastAccepted(start: map<Media, Track>, attaches: seq<Attach>, kind: Media)
    ensures kind in Carried(start, attaches) <==> LastOf(Accepted(start, attaches), kind).Some? || kind in start
    ensures kind in Carried(start, attaches) ==> IsLastAccepted(start, attaches, kind, Carried(start, attaches)[kind])
  {
    if attaches != [] {
      var init, a := attaches[..|attaches| - 1], attaches[|attaches| - 1];
      CarriedIsLastAccepted(start, init, kind);
      var accepted := Accepted(start, init);
      assert (accepted + [a])[..|accepted|] == accepted && accepted + [] == accepted;
    }
  }

  lemma {:induction false} AcceptedIsSubsequence(start: map<Media, Track>, attaches: seq<Attach>)
    ensures Subsequence(Tracks(Accepted(start, attaches)), Tracks(attaches))
  {
    if attaches != [] {
      var init, a := attaches[..|attaches| - 1], attaches[|attaches| - 1];
      AcceptedIsSubsequence(start, init);
      var accepted := Accepted(start, init);
      assert Tracks(attaches) == Tracks(init) + [a.track];
      assert Tracks(accepted + [a]) == Tracks(accepted) + [a.track] && accepted + [] == accepted;
      SubsequenceOfBoth(Tracks(accepted), Tracks(init), a.track);
      SubsequenceOfLonger(Tracks(accepted), Tracks(init), a.track);
    }
  }

  /**
   The whole way: when the tracks handed on so far have been attached in order,
   each kind has one sender; it carries the last accepted track of its kind; and
   the accepted tracks are some of the arrivals, in the order of arrival.
   */
  lemma TracksReachTheBrowser(p: KitPeer, ts: seq<Transceiver>, start: map<Media, Track>, attaches: seq<Attach>)
    requires p.Valid() && OnePerKind(ts, start) && Tracks(attaches) <= p.taken
    ensures OnePerKind(AttachAll(ts, attaches), Carried(start, attaches))
    ensures Subsequence(Tracks(Accepted(start, attaches)), p.arrived)
    ensures forall kind :: kind in Carried(start, attaches) ==> IsLastAccepted(start, attaches, kind, Carried(start, attaches)[kind])
  {
    hide Accepted, Carried, IsLastAccepted, OnePerKind;
    OneSenderPerKind(ts, start, attaches);
    AcceptedIsSubsequence(start, attaches);
    var handed := Tracks(attaches);
    assert p.taken + p.tracks == handed + (p.taken[|handed|..] + p.tracks);
    PrefixIsSubsequence(handed, p.taken[|handed|..] + p.tracks, p.arrived);
    SubsequenceTransitive(Tracks(Accepted(start, attaches)), handed, p.arrived);
    forall kind | kind in Carried(start, attaches)
      ensures IsLastAccepted(start, attaches, kind, Carried(start, attaches)[kind])
    {
      CarriedIsLastAccepted(start, attaches, kind);
    }
  }

  lemma OneMoreAttached(ts: seq<Transceiver>, attaches: seq<Attach>, a: Attach)
    ensures Tracks(attaches + [a]) == Tracks(attaches) + [a.track]
    ensures AttachAll(ts, attaches + [a]) == Attached(AttachAll(ts, attaches), a)
  {
    assert (attaches + [a])[..|attaches|] == attaches;
  }

  /** The loop over the channel, for at most so many tracks: every one it receives is attached, in order. */
  method AttachTracks(kit: KitPeer, browser: BrowserPeer, media: Track -> Media, replaceOk: nat -> bool, addOk: nat -> bool, rounds: nat)
    returns (attaches: seq<Attach>)
    requires kit.Valid()
    modifies kit`tracks, kit`taken, browser
    ensures kit.Valid() && kit.taken == old(kit.taken) + Tracks(attaches)
    ensures |attaches| == if rounds < |old(kit.tracks)| then rounds else |old(kit.tracks)|
    ensures browser.transceivers == AttachAll(old(browser.transceivers), attaches)
    ensures forall i :: 0 <= i < |attaches| ==> attaches[i] == Attach(media(attaches[i].track), attaches[i].track, replaceOk(i), addOk(i))
  {
    hide Subsequence, Attached, TakenOn, FirstUsable, KitPeer.Valid;
    attaches := [];
    var n := 0;
    while n < rounds
      invariant n == |attaches| <= rounds && kit.Valid()
      invariant kit.taken == old(kit.taken) + Tracks(attaches) && |kit.tracks| == |old(kit.tracks)| - n
      invariant browser.transceivers == AttachAll(old(browser.transceivers), attaches)
      invariant forall i :: 0 <= i < n ==> attaches[i] == Attach(media(attaches[i].track), attaches[i].track, replaceOk(i), addOk(i))
    {
      var t := kit.Receive();
      if t.None? {
        return;
      }
      var a := Attach(media(t.value), t.value, replaceOk(n), addOk(n));
      var _ := browser.ReplaceOrAddTrack(a.kind, a.track, a.replaceOk, a.addOk);
      OneMoreAttached(old(browser.transceivers), attaches, a);
      hide Tracks, AttachAll;
      attaches := attaches + [a];
      n := n + 1;
    }
  }
}
