/** Sessions kept in the browser: sealed values cut into cookie chunks, read back and cleared. */
module Sessions {
  import opened Strings

  const ChunkSize := 3500
  const MaxChunks := 4

  // ---------------------------------------------------------------- chunks --

  function Chunks(value: string, size: nat): (parts: seq<string>)
    requires size > 0
    ensures parts != []
    decreases |value|
  {
    if |value| > size then [value[..size]] + Chunks(value[size..], size) else [value]
  }

  function Joined(parts: seq<string>): string {
    if parts == [] then "" else parts[0] + Joined(parts[1..])
  }

  method Chunk(value: string, size: nat) returns (parts: seq<string>)
    requires size > 0
    ensures parts == Chunks(value, size)
  {
    parts := [];
    var rest := value;
    while |rest| > size
      invariant parts + Chunks(rest, size) == Chunks(value, size)
      decreases |rest|
    {
      assert parts + Chunks(rest, size) == parts + [rest[..size]] + Chunks(rest[size..], size);
      parts := parts + [rest[..size]];
      rest := rest[size..];
    }
    parts := parts + [rest];
  }

  /** Cutting loses nothing. */
  lemma {:induction false} ChunksJoin(value: string, size: nat)
    requires size > 0
    ensures Joined(Chunks(value, size)) == value
    decreases |value|
  {
    if |value| > size {
      ChunksJoin(value[size..], size);
      var parts := Chunks(value, size);
      assert parts[1..] == Chunks(value[size..], size);
    } else {
      assert Joined([value]) == value + Joined([]);
    }
  }

  /** A value within the budget fits the chunks there are, and no other does. */
  lemma ChunksFitBudget(value: string)
    ensures |Chunks(value, ChunkSize)| <= MaxChunks <==> |value| <= ChunkSize * MaxChunks
  {
    var v1 := if |value| > ChunkSize then value[ChunkSize..] else "";
    var v2 := if |v1| > ChunkSize then v1[ChunkSize..] else "";
    var v3 := if |v2| > ChunkSize then v2[ChunkSize..] else "";
    var v4 := if |v3| > ChunkSize then v3[ChunkSize..] else "";
    assert |value| > ChunkSize ==> |Chunks(value, ChunkSize)| == 1 + |Chunks(v1, ChunkSize)|;
    assert |v1| > ChunkSize ==> |Chunks(v1, ChunkSize)| == 1 + |Chunks(v2, ChunkSize)|;
    assert |v2| > ChunkSize ==> |Chunks(v2, ChunkSize)| == 1 + |Chunks(v3, ChunkSize)|;
    assert |v3| > ChunkSize ==> |Chunks(v3, ChunkSize)| == 1 + |Chunks(v4, ChunkSize)|;
  }

  // --------------------------------------------------------------- the jar --

  /** Cookies of one extension by chunk index; `expires` is absent for browser sessions. */
  datatype Cookie = Cookie(value: string, expires: Option<int>)

  type Jar = map<nat, Cookie>

  predicate Alive(c: Cookie, now: int) {
    c.expires.None? || now < c.expires.value
  }

  /** What the browser still has, and sends, at an instant. */
  function Visible(jar: Jar, now: int): Jar {
    map i | i in jar && Alive(jar[i], now) :: jar[i]
  }

  function Deadline(now: int, maxAge: nat): Option<int> {
    if maxAge == 0 then None else Some(now + maxAge)
  }

  function ChunkCookies(parts: seq<string>, expires: Option<int>): Jar {
    map i: nat | i < |parts| :: Cookie(parts[i], expires)
  }

  /** The jar without the cookies of an index range. */
  function Without(jar: Jar, from: nat, to: nat): Jar {
    map i | i in jar && !(from <= i < to) :: jar[i]
  }

  // ------------------------------------------------------------ operations --

  datatype Session = Session(payload: string, expiresAt: int)

  /** Authenticated encryption, abstractly: opening a sealed session gives it back. */
  datatype Codec = Codec(seal: (Session, string) -> string, open: string -> Option<Session>, lifetime: nat)

  ghost predicate Lawful(c: Codec) {
    forall s, nonce :: c.open(c.seal(s, nonce)) == Some(s)
  }

  /** The jar after a seal: an oversize value leaves it as it is. */
  function AfterSeal(c: Codec, jar: Jar, session: Session, nonce: string, now: int): Jar {
    var value := c.seal(session, nonce);
    if |value| > ChunkSize * MaxChunks then Visible(jar, now)
    else Without(Visible(jar, now), 0, MaxChunks) + ChunkCookies(Chunks(value, ChunkSize), Deadline(now, c.lifetime))
  }

  function AfterClear(jar: Jar, now: int): Jar {
    Without(Visible(jar, now), 0, MaxChunks)
  }

  /** The chunk values from an index on, up to the first gap. */
  function Parts(jar: Jar, index: nat): seq<string>
    decreases MaxChunks - index
  {
    if index >= MaxChunks || index !in jar then [] else [jar[index].value] + Parts(jar, index + 1)
  }

  function Opened(c: Codec, jar: Jar, now: int): Option<Session> {
    var parts := Parts(Visible(jar, now), 0);
    if parts == [] then None
    else
      match c.open(Joined(parts))
      case None => None
      case Some(session) => if now >= session.expiresAt then None else Some(session)
  }

  /** A browser and the requests it performs: a request carries the live cookies, and the
      cookies a response sets take effect in order. */
  class Browser {
    var jar: Jar

    method SealSession(c: Codec, session: Session, nonce: string, now: int) returns (ok: bool)
      modifies this
      ensures ok <==> |c.seal(session, nonce)| <= ChunkSize * MaxChunks
      ensures jar == AfterSeal(c, old(jar), session, nonce, now)
    {
      var request := Visible(jar, now);
      jar := request;
      var value := c.seal(session, nonce);
      if |value| > ChunkSize * MaxChunks {
        return false;
      }
      ChunksFitBudget(value);
      var chunks := Chunk(value, ChunkSize);
      var expires := Deadline(now, c.lifetime);
      SetChunks(chunks, expires);
      DropChunks(request, |chunks|);
      StaleAreDropped(request, chunks, expires);
      ok := true;
    }

    method SetChunks(chunks: seq<string>, expires: Option<int>)
      modifies this
      ensures jar == old(jar) + ChunkCookies(chunks, expires)
    {
      for index := 0 to |chunks|
        invariant jar == old(jar) + ChunkCookies(chunks[..index], expires)
      {
        CookiesGrow(old(jar), chunks, index, expires);
        jar := jar[index := Cookie(chunks[index], expires)];
      }
      assert chunks[..|chunks|] == chunks;
    }

    /** Expires the chunks from an index on that the request carried. */
    method DropChunks(request: Jar, from: nat)
      requires from <= MaxChunks
      requires forall i | i in jar && i >= from :: i in request
      modifies this
      ensures jar == Without(old(jar), from, MaxChunks)
    {
      for index := from to MaxChunks
        invariant jar == Without(old(jar), from, index)
      {
        if index in request {
          jar := jar - {index};
        }
      }
    }

    method OpenSession(c: Codec, now: int) returns (session: Option<Session>)
      ensures session == Opened(c, jar, now)
    {
      var request := Visible(jar, now);
      var parts: seq<string> := [];
      var index := 0;
      while index < MaxChunks && index in request
        invariant 0 <= index <= MaxChunks
        invariant parts + Parts(request, index) == Parts(request, 0)
      {
        assert parts + Parts(request, index) == parts + [request[index].value] + Parts(request, index + 1);
        parts := parts + [request[index].value];
        index := index + 1;
      }
      assert parts + [] == parts;
      if |parts| == 0 {
        return None;
      }
      session := c.open(Joined(parts));
      if session.None? {
        return None;
      }
      if now >= session.value.expiresAt {
        return None;
      }
    }

    method ClearSession(now: int)
      modifies this
      ensures jar == AfterClear(old(jar), now)
    {
      var request := Visible(jar, now);
      jar := request - {0};
      DropChunks(request, 1);
    }
  }

  lemma CookiesGrow(jar: Jar, chunks: seq<string>, index: nat, expires: Option<int>)
    requires index < |chunks|
    ensures jar + ChunkCookies(chunks[..index + 1], expires) ==
            (jar + ChunkCookies(chunks[..index], expires))[index := Cookie(chunks[index], expires)]
  {
  }

  lemma StaleAreDropped(request: Jar, chunks: seq<string>, expires: Option<int>)
    requires |chunks| <= MaxChunks
    ensures Without(request + ChunkCookies(chunks, expires), |chunks|, MaxChunks) ==
            Without(request, 0, MaxChunks) + ChunkCookies(chunks, expires)
  {
  }

  // ------------------------------------------------------------------ runs --

  datatype Step = Seal(session: Session, nonce: string) | Clear

  datatype Event = Event(step: Step, at: int)

  function AfterEvent(c: Codec, jar: Jar, e: Event): Jar {
    match e.step
    case Seal(session, nonce) => AfterSeal(c, jar, session, nonce, e.at)
    case Clear => AfterClear(jar, e.at)
  }

  /** The jar after a sequence of requests, starting from whatever the browser held. */
  function Replay(c: Codec, jar: Jar, events: seq<Event>): Jar {
    if events == [] then jar
    else
      var n := |events| - 1;
      AfterEvent(c, Replay(c, jar, events[..n]), events[n])
  }

  /** What the browser should be taken for: unknown while it may hold cookies from before, nobody,
      or the holder of a session until its cookies run out. */
  datatype Account = Unknown | Nobody | Holder(session: Session, until: Option<int>)

  predicate Fits(c: Codec, session: Session, nonce: string) {
    |c.seal(session, nonce)| <= ChunkSize * MaxChunks
  }

  function Expected(c: Codec, start: Account, events: seq<Event>): Account {
    if events == [] then start
    else
      var n := |events| - 1;
      match events[n].step
      case Clear => Nobody
      case Seal(session, nonce) =>
        if Fits(c, session, nonce) then Holder(session, if c.lifetime == 0 then None else Some(events[n].at + c.lifetime))
        else Expected(c, start, events[..n])
  }

  predicate Running(until: Option<int>, now: int) {
    until.None? || now < until.value
  }

  function SessionOf(account: Account, now: int): Option<Session> {
    if account.Holder? && Running(account.until, now) && now < account.session.expiresAt then Some(account.session) else None
  }

  /** The jar has exactly these chunks as its session cookies. */
  ghost predicate Holds(jar: Jar, parts: seq<string>, expires: Option<int>) {
    && |parts| <= MaxChunks
    && forall i: nat | i < MaxChunks :: (i in jar <==> i < |parts|) && (i in jar ==> jar[i] == Cookie(parts[i], expires))
  }

  /** The jar has the chunks of one sealed value of the session. */
  ghost predicate HoldsSession(c: Codec, jar: Jar, session: Session, until: Option<int>) {
    exists nonce :: Fits(c, session, nonce) && Holds(jar, Chunks(c.seal(session, nonce), ChunkSize), until)
  }

  /** The jar is that of the account, as of an instant. */
  ghost predicate Refines(c: Codec, jar: Jar, account: Account, now: int) {
    match account
    case Unknown => true
    case Nobody => Holds(jar, [], None)
    case Holder(session, until) =>
      HoldsSession(c, jar, session, until) || (!Running(until, now) && Holds(jar, [], None))
  }

  lemma SealingHolds(c: Codec, jar: Jar, session: Session, nonce: string, now: int)
    requires Fits(c, session, nonce)
    ensures HoldsSession(c, AfterSeal(c, jar, session, nonce, now), session, Deadline(now, c.lifetime))
  {
    var value := c.seal(session, nonce);
    ChunksFitBudget(value);
    assert Fits(c, session, nonce) && Holds(AfterSeal(c, jar, session, nonce, now), Chunks(value, ChunkSize), Deadline(now, c.lifetime));
  }

  /** Time takes all chunks of a session together. */
  lemma WaitingHolds(c: Codec, jar: Jar, account: Account, before: int, now: int)
    requires Refines(c, jar, account, before) && before <= now
    ensures Refines(c, Visible(jar, now), account, now)
  {
    if account.Holder? && HoldsSession(c, jar, account.session, account.until) {
      var nonce :| Fits(c, account.session, nonce) && Holds(jar, Chunks(c.seal(account.session, nonce), ChunkSize), account.until);
      if Running(account.until, now) {
        assert Fits(c, account.session, nonce) && Holds(Visible(jar, now), Chunks(c.seal(account.session, nonce), ChunkSize), account.until);
      }
    }
  }

  lemma {:induction false} HeldParts(jar: Jar, parts: seq<string>, expires: Option<int>, index: nat)
    requires Holds(jar, parts, expires) && index <= |parts|
    ensures Parts(jar, index) == parts[index..]
    decreases MaxChunks - index
  {
    if index < |parts| {
      HeldParts(jar, parts, expires, index + 1);
      assert parts[index..] == [parts[index]] + parts[index + 1..];
    }
  }

  lemma OpeningReads(c: Codec, jar: Jar, account: Account, now: int)
    requires Lawful(c) && Refines(c, jar, account, now) && !account.Unknown?
    ensures Opened(c, jar, now) == SessionOf(account, now)
  {
    WaitingHolds(c, jar, account, now, now);
    var visible := Visible(jar, now);
    if account.Holder? && HoldsSession(c, visible, account.session, account.until) {
      var nonce :| Fits(c, account.session, nonce) && Holds(visible, Chunks(c.seal(account.session, nonce), ChunkSize), account.until);
      var value := c.seal(account.session, nonce);
      HeldParts(visible, Chunks(value, ChunkSize), account.until, 0);
      ChunksJoin(value, ChunkSize);
      assert 0 in visible;
    } else {
      HeldParts(visible, [], None, 0);
    }
  }

  predicate Ordered(events: seq<Event>) {
    forall i, j | 0 <= i < j < |events| :: events[i].at <= events[j].at
  }

  predicate Since(events: seq<Event>, now: int) {
    forall i | 0 <= i < |events| :: events[i].at <= now
  }

  lemma {:induction false} ReplayRefines(c: Codec, jar: Jar, start: Account, events: seq<Event>, now: int)
    requires Ordered(events) && Since(events, now)
    requires start == Unknown || (start == Nobody && jar == map[])
    ensures Refines(c, Replay(c, jar, events), Expected(c, start, events), now)
    decreases |events|
  {
    if events != [] {
      var n := |events| - 1;
      var front, e := events[..n], events[n];
      var before := Replay(c, jar, front);
      ReplayRefines(c, jar, start, front, e.at);
      match e.step {
        case Clear =>
        case Seal(session, nonce) =>
          if Fits(c, session, nonce) {
            SealingHolds(c, before, session, nonce, e.at);
          } else {
            WaitingHolds(c, before, Expected(c, start, front), e.at, e.at);
            LaterRefines(c, Visible(before, e.at), Expected(c, start, front), e.at, now);
          }
      }
    }
  }

  lemma LaterRefines(c: Codec, jar: Jar, account: Account, before: int, now: int)
    requires Refines(c, jar, account, before) && before <= now
    ensures Refines(c, jar, account, now)
  {
  }

  /** Over any sequence of seals, clears and failed oversize seals the session read back is the
      last one sealed, while it has not expired, and none after a clear, also when a smaller
      session replaced a larger one. A browser that held anything before is covered from the
      first effective request on. */
  lemma LastSessionIsRead(c: Codec, jar: Jar, start: Account, events: seq<Event>, now: int)
    requires Lawful(c) && Ordered(events) && Since(events, now)
    requires start == Unknown || (start == Nobody && jar == map[])
    requires !Expected(c, start, events).Unknown?
    ensures Opened(c, Replay(c, jar, events), now) == SessionOf(Expected(c, start, events), now)
  {
    ReplayRefines(c, jar, start, events, now);
    OpeningReads(c, Replay(c, jar, events), Expected(c, start, events), now);
  }

  /** And the session cookies are always either none or the chunks, from the first on, of one sealed
      value of the session the browser is taken for, with one expiry. */
  lemma CookiesAreOneRun(c: Codec, jar: Jar, start: Account, events: seq<Event>, now: int)
    requires Ordered(events) && Since(events, now)
    requires start == Unknown || (start == Nobody && jar == map[])
    requires !Expected(c, start, events).Unknown?
    ensures
      var held, account := Replay(c, jar, events), Expected(c, start, events);
      || Holds(held, [], None)
      || (account.Holder? && exists nonce ::
            Fits(c, account.session, nonce) && Holds(held, Chunks(c.seal(account.session, nonce), ChunkSize), account.until))
  {
    ReplayRefines(c, jar, start, events, now);
  }
}
