/** A node's activity feed: a bounded ring of events and the last state seen of what it watches. */
module Feed {
  import opened Common

  /** Nanoseconds; 0 is the zero time. */
  type Time = int
  type Text = seq<Byte>

  datatype Kind =
    | LinkUp | LinkDown
    | ProxyUp | ProxyDown | ProxyCrashLoop
    | CoverOK | CoverFailed
    | Applied | PushFailed
    | Refused | EgressFailed
    | JobOK | JobFailed

  datatype Level = Info | Warn | Error

  datatype Event = Event(at: Time, kind: Kind, level: Level, detail: Text, count: nat)

  datatype ProxyState = ProxyState(running: bool, looping: bool)

  const FEED_CAP: nat := 200
  const FLOOD_MERGE: Time := 60_000_000_000
  const DETAIL_MAX: nat := 500

  // ---------- clip

  /** utf8.RuneStart: not a continuation byte. */
  predicate RuneStart(b: Byte) {
    !(0x80 <= b < 0xc0)
  }

  /** How many bytes the rune that starts with b takes. */
  function RuneLength(b: Byte): nat {
    if b < 0x80 then 1 else if b < 0xe0 then 2 else if b < 0xf0 then 3 else 4
  }

  /** A sequence of whole runes: each starting byte is followed by its continuation bytes. */
  ghost predicate WholeRunes(s: Text) {
    s != [] ==>
      var n := RuneLength(s[0]);
      && RuneStart(s[0])
      && n <= |s|
      && (forall i :: 1 <= i < n ==> !RuneStart(s[i]))
      && WholeRunes(s[n..])
  }

  /** The longest beginning of at most DETAIL_MAX bytes that stops before a rune. */
  ghost predicate IsClip(s: Text, r: Text) {
    if |s| <= DETAIL_MAX then r == s
    else
      && |r| <= DETAIL_MAX && r == s[..|r|]
      && (|r| == 0 || RuneStart(s[|r|]))
      && forall i :: |r| < i <= DETAIL_MAX ==> !RuneStart(s[i])
  }

  function CutPoint(s: Text, n: nat): (m: nat)
    requires n < |s|
    ensures m <= n && (m == 0 || RuneStart(s[m])) && forall i :: m < i <= n ==> !RuneStart(s[i])
  {
    if n == 0 || RuneStart(s[n]) then n else CutPoint(s, n - 1)
  }

  function Clip(s: Text): (r: Text)
    ensures IsClip(s, r)
  {
    if |s| <= DETAIL_MAX then s else s[..CutPoint(s, DETAIL_MAX)]
  }

  method ClipLoop(s: Text) returns (r: Text)
    ensures r == Clip(s)
  {
    if |s| <= DETAIL_MAX {
      return s;
    }
    var n := DETAIL_MAX;
    while n > 0 && !RuneStart(s[n])
      invariant 0 <= n <= DETAIL_MAX && CutPoint(s, n) == CutPoint(s, DETAIL_MAX)
    {
      n := n - 1;
    }
    return s[..n];
  }

  /** Cutting whole runes before a rune start leaves whole runes. */
  lemma {:induction false} CutKeepsRunes(s: Text, n: nat)
    requires WholeRunes(s) && n < |s| && RuneStart(s[n])
    ensures WholeRunes(s[..n])
  {
    if n > 0 {
      var k := RuneLength(s[0]);
      assert k <= n;
      var rest := s[k..];
      assert rest[n - k] == s[n];
      CutKeepsRunes(rest, n - k);
      assert s[..n][k..] == rest[..n - k];
    }
  }

  /** A clipped text is still text: no rune is cut in half, and at most three bytes more than
      needed are lost. */
  lemma ClipKeepsRunes(s: Text)
    requires WholeRunes(s)
    ensures WholeRunes(Clip(s))
    ensures |s| > DETAIL_MAX ==> DETAIL_MAX - 3 <= |Clip(s)| <= DETAIL_MAX
  {
    if |s| > DETAIL_MAX {
      var n := CutPoint(s, DETAIL_MAX);
      assert WholeRunes([]);
      if n > 0 {
        CutKeepsRunes(s, n);
      }
      SomeStartNear(s, DETAIL_MAX);
    }
  }

  /** In whole runes a start is never more than three bytes back. */
  lemma {:induction false} SomeStartNear(s: Text, n: nat)
    requires WholeRunes(s) && n < |s|
    ensures exists i :: 0 <= i <= n && n - 3 <= i && RuneStart(s[i])
  {
    var k := RuneLength(s[0]);
    if n < k {
      assert RuneStart(s[0]);
    } else {
      var rest := s[k..];
      SomeStartNear(rest, n - k);
      var i :| 0 <= i <= n - k && n - k - 3 <= i && RuneStart(rest[i]);
      assert RuneStart(s[i + k]);
    }
  }

  // ---------- the ring

  /** addLocked, with the clock reading it would take. */
  function Added(ring: seq<Event>, ev: Event, now: Time): seq<Event> {
    var ev' := ev.(at := if ev.at == 0 then now else ev.at, detail := Clip(ev.detail));
    (if |ring| == FEED_CAP then ring[1..] else ring) + [ev']
  }

  /** The entry addLocked pushes out, if the ring is full. */
  function PushedOut(ring: seq<Event>): seq<Event> {
    if |ring| == FEED_CAP then [ring[0]] else []
  }

  /** From position i down, the entry a flood folds into: the nearest of its kind, as long as
      everything on the way is less than FLOOD_MERGE older. */
  function FoldInto(ring: seq<Event>, i: int, ev: Event): (k: int)
    requires -1 <= i < |ring|
    ensures k <= i && (k >= 0 ==> ring[k].kind == ev.kind)
    ensures k >= 0 ==> forall j :: k <= j <= i ==> ev.at - ring[j].at < FLOOD_MERGE
    ensures k >= 0 ==> forall j :: k < j <= i ==> ring[j].kind != ev.kind
    ensures k < 0 ==> forall j :: 0 <= j <= i && ring[j].kind == ev.kind ==>
              exists h :: j <= h <= i && ev.at - ring[h].at >= FLOOD_MERGE
    decreases i + 1
  {
    if i < 0 then -1
    else if ev.at - ring[i].at >= FLOOD_MERGE then -1
    else if ring[i].kind == ev.kind then i
    else FoldInto(ring, i - 1, ev)
  }

  function Folded(entry: Event, ev: Event): Event {
    entry.(count := entry.count + ev.count,
           at := if ev.at > entry.at then ev.at else entry.at,
           detail := if ev.detail != [] then Clip(ev.detail) else entry.detail)
  }

  /** flood: fold into the entry and move it to the top, or add. */
  function Flooded(ring: seq<Event>, ev: Event, now: Time): seq<Event> {
    var k := FoldInto(ring, |ring| - 1, ev);
    if k >= 0 then ring[..k] + ring[k + 1..] + [Folded(ring[k], ev)] else Added(ring, ev, now)
  }

  function FloodPushesOut(ring: seq<Event>, ev: Event): seq<Event> {
    if FoldInto(ring, |ring| - 1, ev) >= 0 then [] else PushedOut(ring)
  }

  // ---------- the whole feed

  /** The last state seen of each thing watched. */
  datatype Memory = Memory(
    link: Option<bool>,
    proxy: Option<ProxyState>,
    cover: Option<bool>,
    applies: Text,
    pushErr: Text)

  datatype State = State(ring: seq<Event>, memory: Memory)

  const BLANK := Memory(None, None, None, [], [])
  const EMPTY := State([], BLANK)

  datatype Op =
    | Add(ev: Event)
    | Flood(ev: Event)
    | SeeLink(up: bool, why: Text)
    | SeeProxy(state: ProxyState, held: Text, lastExit: Text)
    | SeeCover(ok: bool, detail: Text)
    | SeeApplied(rev: Text, users: Text)
    | SeePushFailed(why: Text)

  function Plain(kind: Kind, level: Level, detail: Text): Event {
    Event(0, kind, level, detail, 0)
  }

  /** The event an observation records, if it is news. */
  function News(s: Memory, op: Op): Option<Event> {
    match op
    case Add(ev) => Some(ev)
    case Flood(ev) => None
    case SeeLink(up, why) =>
      if up && s.link == Some(false) then Some(Plain(LinkUp, Info, []))
      else if !up && s.link != Some(false) then Some(Plain(LinkDown, Error, why))
      else None
    case SeeProxy(cur, held, lastExit) =>
      var down := if held != [] then Plain(ProxyDown, Info, held) else Plain(ProxyDown, Warn, lastExit);
      if cur.looping then
        (if s.proxy.None? || !s.proxy.value.looping then Some(Plain(ProxyCrashLoop, Error, lastExit)) else None)
      else if s.proxy.None? then (if cur.running then None else Some(down))
      else if s.proxy.value.looping || s.proxy.value.running != cur.running then
        (if cur.running then Some(Plain(ProxyUp, Info, [])) else Some(down))
      else None
    case SeeCover(ok, detail) =>
      if ok && s.cover == Some(false) then Some(Plain(CoverOK, Info, detail))
      else if !ok && s.cover != Some(false) then Some(Plain(CoverFailed, Warn, detail))
      else None
    case SeeApplied(rev, users) => if rev == s.applies then None else Some(Plain(Applied, Info, users))
    case SeePushFailed(why) => if why == s.pushErr then None else Some(Plain(PushFailed, Error, why))
  }

  /** What the observation leaves remembered. */
  function Remembered(s: Memory, op: Op): Memory {
    match op
    case Add(_) => s
    case Flood(_) => s
    case SeeLink(up, _) => s.(link := Some(up))
    case SeeProxy(cur, _, _) => s.(proxy := Some(cur))
    case SeeCover(ok, _) => s.(cover := Some(ok))
    case SeeApplied(rev, _) => s.(pushErr := [], applies := rev)
    case SeePushFailed(why) => s.(pushErr := why)
  }

  function Do(s: State, op: Op, now: Time): State {
    var news := News(s.memory, op);
    var ring := if op.Flood? then Flooded(s.ring, op.ev, now)
                else if news.Some? then Added(s.ring, news.value, now)
                else s.ring;
    State(ring, Remembered(s.memory, op))
  }

  class Feed {
    var ring: seq<Event>
    var link: Option<bool>
    var proxy: Option<ProxyState>
    var cover: Option<bool>
    var applies: Text
    var pushErr: Text

    function View(): State
      reads this
    {
      State(ring, Memory(link, proxy, cover, applies, pushErr))
    }

    constructor ()
      ensures View() == EMPTY
    {
      ring, link, proxy, cover, applies, pushErr := [], None, None, None, [], [];
    }

    method AddLocked(ev: Event, now: Time)
      modifies this`ring
      ensures ring == Added(old(ring), ev, now)
    {
      var at := ev.at;
      if at == 0 {
        at := now;
      }
      var detail := ClipLoop(ev.detail);
      if |ring| == FEED_CAP {
        ring := ring[1..];
      }
      ring := ring + [ev.(at := at, detail := detail)];
    }

    /** The backward scan of flood. */
    method FindFold(ev: Event) returns (i: int)
      ensures i == FoldInto(ring, |ring| - 1, ev)
    {
      i := |ring| - 1;
      while i >= 0 && ev.at - ring[i].at < FLOOD_MERGE
        invariant -1 <= i < |ring|
        invariant FoldInto(ring, i, ev) == FoldInto(ring, |ring| - 1, ev)
        decreases i
      {
        if ring[i].kind == ev.kind {
          return;
        }
        i := i - 1;
      }
      i := -1;
    }

    method FloodEvent(ev: Event, now: Time)
      modifies this`ring
      ensures View() == Do(old(View()), Flood(ev), now)
    {
      var i := FindFold(ev);
      if i < 0 {
        AddLocked(ev, now);
        return;
      }
      var merged := FoldEvent(ring[i], ev);
      ring := ring[..i] + ring[i + 1..] + [merged];
    }

    static method FoldEvent(entry: Event, ev: Event) returns (merged: Event)
      ensures merged == Folded(entry, ev)
    {
      merged := entry.(count := entry.count + ev.count);
      if ev.at > merged.at {
        merged := merged.(at := ev.at);
      }
      if ev.detail != [] {
        var detail := ClipLoop(ev.detail);
        merged := merged.(detail := detail);
      }
    }

    method LinkSeen(up: bool, why: Text, now: Time)
      modifies this
      ensures View() == Do(old(View()), SeeLink(up, why), now)
    {
      var prev := link;
      link := Some(up);
      if up && prev.Some? && !prev.value {
        AddLocked(Plain(LinkUp, Info, []), now);
      } else if !up && (prev.None? || prev.value) {
        AddLocked(Plain(LinkDown, Error, why), now);
      }
    }

    method ProxySeen(cur: ProxyState, held: Text, lastExit: Text, now: Time)
      modifies this
      ensures View() == Do(old(View()), SeeProxy(cur, held, lastExit), now)
    {
      var prev := proxy;
      proxy := Some(cur);
      var down := if held != [] then Plain(ProxyDown, Info, held) else Plain(ProxyDown, Warn, lastExit);
      if cur.looping {
        if prev.None? || !prev.value.looping {
          AddLocked(Plain(ProxyCrashLoop, Error, lastExit), now);
        }
      } else if prev.None? {
        if !cur.running {
          AddLocked(down, now);
        }
      } else if prev.value.looping || prev.value.running != cur.running {
        if cur.running {
          AddLocked(Plain(ProxyUp, Info, []), now);
        } else {
          AddLocked(down, now);
        }
      }
    }

    method CoverSeen(ok: bool, detail: Text, now: Time)
      modifies this
      ensures View() == Do(old(View()), SeeCover(ok, detail), now)
    {
      var prev := cover;
      cover := Some(ok);
      if ok && prev.Some? && !prev.value {
        AddLocked(Plain(CoverOK, Info, detail), now);
      } else if !ok && (prev.None? || prev.value) {
        AddLocked(Plain(CoverFailed, Warn, detail), now);
      }
    }

    method AppliedState(rev: Text, users: Text, now: Time)
      modifies this
      ensures View() == Do(old(View()), SeeApplied(rev, users), now)
    {
      pushErr := [];
      if rev == applies {
        return;
      }
      applies := rev;
      AddLocked(Plain(Applied, Info, users), now);
    }

    method PushFailedWith(why: Text, now: Time)
      modifies this
      ensures View() == Do(old(View()), SeePushFailed(why), now)
    {
      if why == pushErr {
        return;
      }
      pushErr := why;
      AddLocked(Plain(PushFailed, Error, why), now);
    }
  }
}
