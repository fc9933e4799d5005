/**
 * The bookkeeping of the browser client in frontend/src/script.js: the table
 * of user markers keyed by user id, the routing of incoming location
 * messages into it, the minute sweep of stale markers, the bounded reconnect
 * counter, and the "time ago" text of the users list.
 *
 * Map rendering, popups and the users list are not part of this model: a
 * marker is the record the client keeps about it. Coordinates are carried as
 * they were parsed; `parseFloat` itself is not modelled, only whether it
 * gave a number. Timers become explicit calls with the current time.
 */
module MapClient {
  import opened Wrappers
  import opened Decimal

  /** A parsed coordinate, or the accuracy radius, in the units of the map. */
  type Coord = int

  /** `parseFloat` of a field that is present: a number or `NaN`. */
  datatype Parsed = Number(value: Coord) | NotANumber

  datatype Position = Position(lat: Coord, lng: Coord)

  /** What the client keeps per user: the marker's place and radius, and the bookkeeping fields. */
  datatype Marker = Marker(position: Position, accuracy: Coord, lastUpdated: int, isCurrentUser: bool, username: string)

  /** A decoded socket message: not an object at all, or an object with these fields (`None` when absent). */
  datatype Incoming =
    | NotAnObject
    | Message(msgType: Option<string>, userId: Option<string>, lat: Option<Parsed>, lng: Option<Parsed>,
              username: Option<string>, accuracy: Option<Parsed>)

  /** What `processIncomingData` does with a message. */
  datatype Action = Ignore | Remove(userId: string) | Update(message: Incoming)

  const MaxReconnectAttempts: nat := 5
  const ReconnectDelayMs: nat := 3000
  const StaleTimeoutMs: int := 5 * 60 * 1000
  const DefaultUsername: string := "User"
  const DefaultAccuracy: Coord := 10

  /** A string is truthy when it is not empty. */
  predicate Present(s: Option<string>)
  {
    s.Some? && s.value != ""
  }

  /**
   * `processIncomingData`: non-objects are ignored; a 'disconnect' message
   * removes the named user, or does nothing without a user id; any other
   * message goes to the marker table only with a user id and both
   * coordinates present.
   */
  function Route(m: Incoming): (a: Action)
    ensures m.NotAnObject? ==> a == Ignore
    ensures m.Message? && m.msgType == Some("disconnect") ==>
              (Present(m.userId) ==> a == Remove(m.userId.value)) && (!Present(m.userId) ==> a == Ignore)
    ensures m.Message? && m.msgType != Some("disconnect") ==>
              (a == Update(m) <==> Present(m.userId) && m.lat.Some? && m.lng.Some?) && (a.Update? || a == Ignore)
  {
    match m
    case NotAnObject => Ignore
    case Message(msgType, userId, lat, lng, _, _) =>
      if msgType == Some("disconnect") then
        if Present(userId) then Remove(userId.value) else Ignore
      else if Present(userId) && lat.Some? && lng.Some? then Update(m)
      else Ignore
  }

  /** `userData.username || 'User'`. */
  function UsernameOf(m: Incoming): (name: string)
    requires m.Message?
    ensures name != ""
    ensures Present(m.username) ==> name == m.username.value
  {
    if Present(m.username) then m.username.value else DefaultUsername
  }

  /** `parseFloat(userData.accuracy) || 10`: a missing, unparsable or zero accuracy becomes 10. */
  function AccuracyOf(m: Incoming): (a: Coord)
    requires m.Message?
    ensures a != 0
    ensures m.accuracy.Some? && m.accuracy.value.Number? && m.accuracy.value.value != 0 ==> a == m.accuracy.value.value
  {
    match m.accuracy
    case Some(Number(v)) => if v != 0 then v else DefaultAccuracy
    case _ => DefaultAccuracy
  }

  /** The guard of `updateUserMarker`: a user id and two numeric coordinates. */
  predicate Accepted(m: Incoming)
  {
    m.Message? && Present(m.userId)
    && m.lat.Some? && m.lat.value.Number? && m.lng.Some? && m.lng.value.Number?
  }

  function PositionOf(m: Incoming): Position
    requires Accepted(m)
  {
    Position(m.lat.value.value, m.lng.value.value)
  }

  /**
   * The marker table after `updateUserMarker`: an existing entry takes the
   * new position, radius, time and name but keeps its `isCurrentUser` flag;
   * a new entry is added; a rejected message changes nothing.
   */
  function Upserted(markers: map<string, Marker>, currentUserId: Option<string>, m: Incoming, now: int): (r: map<string, Marker>)
    ensures !Accepted(m) ==> r == markers
    ensures Accepted(m) ==> r.Keys == markers.Keys + {m.userId.value}
    ensures Accepted(m) ==> forall uid :: uid in markers && uid != m.userId.value ==> uid in r && r[uid] == markers[uid]
    ensures Accepted(m) ==>
              var e := r[m.userId.value];
              && e.position == PositionOf(m) && e.accuracy == AccuracyOf(m) && e.lastUpdated == now
              && e.username == UsernameOf(m)
              && e.isCurrentUser == (if m.userId.value in markers then markers[m.userId.value].isCurrentUser
                                     else currentUserId == m.userId)
  {
    if !Accepted(m) then markers
    else
      var uid := m.userId.value;
      if uid in markers then
        markers[uid := markers[uid].(position := PositionOf(m), accuracy := AccuracyOf(m), lastUpdated := now,
                                     username := UsernameOf(m))]
      else
        markers[uid := Marker(PositionOf(m), AccuracyOf(m), now, currentUserId == m.userId, UsernameOf(m))]
  }

  /** Applying the same location message twice leaves the table as applying it once. */
  lemma UpsertIdempotent(markers: map<string, Marker>, currentUserId: Option<string>, m: Incoming, now: int)
    ensures Upserted(Upserted(markers, currentUserId, m, now), currentUserId, m, now) == Upserted(markers, currentUserId, m, now)
  {
  }

  /** A marker is stale when it belongs to another user and was last updated more than five minutes ago. */
  predicate Stale(currentUserId: Option<string>, uid: string, e: Marker, now: int)
  {
    currentUserId != Some(uid) && now - e.lastUpdated > StaleTimeoutMs
  }

  /** The table after the minute sweep: exactly the markers that are not stale. */
  function Swept(markers: map<string, Marker>, currentUserId: Option<string>, now: int): map<string, Marker>
  {
    map uid | uid in markers && !Stale(currentUserId, uid, markers[uid], now) :: markers[uid]
  }

  /**
   * The sweep removes only stale markers, keeps every other one unchanged,
   * never removes the current user's, and leaves nothing stale behind.
   */
  lemma SweepKeepsFreshAndCurrent(markers: map<string, Marker>, currentUserId: Option<string>, now: int)
    ensures var r := Swept(markers, currentUserId, now);
            && (forall uid :: uid in r <==> uid in markers && !Stale(currentUserId, uid, markers[uid], now))
            && (forall uid :: uid in r ==> r[uid] == markers[uid])
            && (currentUserId.Some? && currentUserId.value in markers ==> currentUserId.value in r)
            && Swept(r, currentUserId, now) == r
  {
  }

  /** The markers still unswept after visiting all keys but `rest`. */
  function SweptExcept(markers: map<string, Marker>, rest: set<string>, currentUserId: Option<string>, now: int): map<string, Marker>
  {
    map uid | uid in markers && (uid in rest || !Stale(currentUserId, uid, markers[uid], now)) :: markers[uid]
  }

  /** The reconnect bookkeeping: the counter and how many reconnects have been scheduled so far. */
  datatype Reconnect = Reconnect(attempts: nat, scheduled: nat)

  /** `handleSocketClose`'s counting: below the maximum one more reconnect is scheduled. */
  function AfterClose(s: Reconnect): (r: Reconnect)
    ensures s.attempts < MaxReconnectAttempts ==> r.attempts == s.attempts + 1 && r.scheduled == s.scheduled + 1
    ensures s.attempts >= MaxReconnectAttempts ==> r == s
  {
    if s.attempts < MaxReconnectAttempts then Reconnect(s.attempts + 1, s.scheduled + 1) else s
  }

  /** `k` closes in a row, with no successful open between them. */
  function AfterCloses(s: Reconnect, k: nat): Reconnect
  {
    if k == 0 then s else AfterClose(AfterCloses(s, k - 1))
  }

  /**
   * Between two successful opens the client schedules at most five
   * reconnects: `k` closes after an open schedule exactly `min(k, 5)`.
   */
  lemma {:induction false} ClosesScheduleAtMostFive(s: Reconnect, k: nat)
    requires s.attempts <= MaxReconnectAttempts
    ensures AfterCloses(s, k).attempts
            == if k <= MaxReconnectAttempts - s.attempts then s.attempts + k else MaxReconnectAttempts
    ensures AfterCloses(s, k).scheduled - s.scheduled
            == if k <= MaxReconnectAttempts - s.attempts then k else MaxReconnectAttempts - s.attempts
  {
    if k > 0 {
      ClosesScheduleAtMostFive(s, k - 1);
    }
  }

  /** The unit of a "time ago" text. */
  datatype TimeUnit = Seconds | Minutes | Hours

  datatype Ago = Ago(amount: int, unit: TimeUnit)

  /** The amount and unit `formatTimeAgo` shows for a whole number of seconds. */
  function Elapsed(seconds: int): (a: Ago)
    ensures a.unit == Seconds <==> seconds < 60
    ensures a.unit == Minutes <==> 60 <= seconds < 3600
    ensures a.unit == Hours <==> 3600 <= seconds
    ensures a.unit == Seconds ==> a.amount == seconds
    ensures a.unit == Minutes ==> 1 <= a.amount < 60 && a.amount * 60 <= seconds < a.amount * 60 + 60
    ensures a.unit == Hours ==> 1 <= a.amount && a.amount * 3600 <= seconds < a.amount * 3600 + 3600
  {
    if seconds < 60 then Ago(seconds, Seconds)
    else if seconds < 3600 then Ago(seconds / 60, Minutes)
    else Ago(seconds / 3600, Hours)
  }

  function UnitText(u: TimeUnit): string
  {
    match u
    case Seconds => " seconds ago"
    case Minutes => " minutes ago"
    case Hours => " hours ago"
  }

  /** `formatTimeAgo(seconds)`: the amount in decimal, then the unit, then "ago". */
  function FormatTimeAgo(seconds: int): (text: string)
    ensures EndsWith(text, " ago")
    ensures text[0] == '-' <==> seconds < 0
  {
    IntToString(Elapsed(seconds).amount) + UnitText(Elapsed(seconds).unit)
  }

  predicate EndsWith(s: string, suffix: string)
  {
    |suffix| <= |s| && s[|s| - |suffix|..] == suffix
  }

  /** Reads a "time ago" text back into its amount and unit. */
  function ReadTimeAgo(text: string): Option<Ago>
  {
    var u := if EndsWith(text, UnitText(Seconds)) then Some(Seconds)
             else if EndsWith(text, UnitText(Minutes)) then Some(Minutes)
             else if EndsWith(text, UnitText(Hours)) then Some(Hours)
             else None;
    match u
    case None => None
    case Some(unit) =>
      match ToNumber(text[..|text| - |UnitText(unit)|])
      case None => None
      case Some(n) => Some(Ago(n, unit))
  }

  /** The text names its amount and unit unambiguously: reading it back gives both. */
  lemma FormatTimeAgoReadsBack(seconds: int)
    ensures ReadTimeAgo(FormatTimeAgo(seconds)) == Some(Elapsed(seconds))
  {
    var a := Elapsed(seconds);
    ToNumberRoundTrip(a.amount);
    ReadsBack(IntToString(a.amount), a.amount, a.unit);
  }

  /** Any number text followed by a unit's text reads back as that amount and unit. */
  lemma ReadsBack(digits: string, n: int, u: TimeUnit)
    requires ToNumber(digits) == Some(n)
    ensures ReadTimeAgo(digits + UnitText(u)) == Some(Ago(n, u))
  {
    match u {
      case Seconds => ReadsBackSeconds(digits, n);
      case Minutes => ReadsBackMinutes(digits, n);
      case Hours => ReadsBackHours(digits, n);
    }
  }

  lemma ReadsBackSeconds(digits: string, n: int)
    requires ToNumber(digits) == Some(n)
    ensures ReadTimeAgo(digits + UnitText(Seconds)) == Some(Ago(n, Seconds))
  {
    Unsuffixed(digits, UnitText(Seconds));
  }

  /** A minutes text does not end with the seconds text. */
  lemma ReadsBackMinutes(digits: string, n: int)
    requires ToNumber(digits) == Some(n)
    ensures ReadTimeAgo(digits + UnitText(Minutes)) == Some(Ago(n, Minutes))
  {
    Unsuffixed(digits, UnitText(Minutes));
    NotSecondsText(digits + UnitText(Minutes), 11, 'm');
  }

  lemma ReadsBackHours(digits: string, n: int)
    requires ToNumber(digits) == Some(n)
    ensures ReadTimeAgo(digits + UnitText(Hours)) == Some(Ago(n, Hours))
  {
    Unsuffixed(digits, UnitText(Hours));
    HoursNotSeconds(digits);
    HoursNotMinutes(digits);
  }

  /** An hours text does not end with the seconds text. */
  lemma HoursNotSeconds(digits: string)
    ensures !EndsWith(digits + UnitText(Hours), UnitText(Seconds))
  {
    var text := digits + UnitText(Hours);
    assert text[|text| - 7] == UnitText(Hours)[3] == 'u';
    NotSecondsText(text, 7, 'u');
  }

  /** An hours text does not end with the minutes text. */
  lemma HoursNotMinutes(digits: string)
    ensures !EndsWith(digits + UnitText(Hours), UnitText(Minutes))
  {
    var text := digits + UnitText(Hours);
    assert text[|text| - 6] == UnitText(Hours)[4] == 'r';
    NotMinutesText(text, 6, 'r');
  }

  /** A text followed by a suffix ends with it, and cutting the suffix gives the text back. */
  lemma Unsuffixed(digits: string, suffix: string)
    ensures var text := digits + suffix;
            EndsWith(text, suffix) && text[..|text| - |suffix|] == digits
  {
    var text := digits + suffix;
    assert text[|text| - |suffix|..] == suffix;
    assert text[..|text| - |suffix|] == digits;
  }

  /** A text whose `k`-th character from the end differs from that of " minutes ago" does not end with it. */
  lemma NotMinutesText(text: string, k: nat, c: char)
    requires 1 <= k <= 12 && k <= |text| && text[|text| - k] == c && UnitText(Minutes)[12 - k] != c
    ensures !EndsWith(text, UnitText(Minutes))
  {
    if |text| >= 12 {
      assert text[|text| - 12..][12 - k] == text[|text| - k];
    }
  }

  /** A text whose `k`-th character from the end differs from that of " seconds ago" does not end with it. */
  lemma NotSecondsText(text: string, k: nat, c: char)
    requires 1 <= k <= 12 && k <= |text| && text[|text| - k] == c && UnitText(Seconds)[12 - k] != c
    ensures !EndsWith(text, UnitText(Seconds))
  {
    if |text| >= 12 {
      assert text[|text| - 12..][12 - k] == text[|text| - k];
    }
  }

  class Client {
    /** `userMarkers`, keyed by user id. */
    var markers: map<string, Marker>
    /** `currentUserId`: `None` while nobody is logged in. */
    var currentUserId: Option<string>
    var lastKnownPosition: Option<Position>
    var reconnectAttempts: nat
    /** The number of reconnect timers scheduled so far. */
    var scheduledReconnects: nat

    ghost predicate Valid()
      reads this
    {
      reconnectAttempts <= MaxReconnectAttempts
    }

    constructor (currentUserId: Option<string>)
      ensures Valid()
      ensures this.currentUserId == currentUserId && markers == map[] && lastKnownPosition.None?
      ensures reconnectAttempts == 0 && scheduledReconnects == 0
    {
      this.currentUserId := currentUserId;
      markers := map[];
      lastKnownPosition := None;
      reconnectAttempts := 0;
      scheduledReconnects := 0;
    }

    function ReconnectState(): Reconnect
      reads this
    {
      Reconnect(reconnectAttempts, scheduledReconnects)
    }

    /** `clearAllMarkers`: the table is emptied. */
    method ClearAllMarkers()
      modifies this
      ensures markers == map[]
      ensures currentUserId == old(currentUserId) && lastKnownPosition == old(lastKnownPosition)
      ensures reconnectAttempts == old(reconnectAttempts) && scheduledReconnects == old(scheduledReconnects)
    {
      markers := map[];
    }

    /** `removeUserMarker`: the user's entry goes if there is one; otherwise nothing happens. */
    method RemoveUserMarker(userId: string)
      modifies this
      ensures markers == old(markers) - {userId}
      ensures userId !in old(markers) ==> markers == old(markers)
      ensures currentUserId == old(currentUserId) && lastKnownPosition == old(lastKnownPosition)
      ensures reconnectAttempts == old(reconnectAttempts) && scheduledReconnects == old(scheduledReconnects)
    {
      if userId in markers {
        markers := markers - {userId};
      }
    }

    /**
     * `updateUserMarker`: a message without a user id or with a non-numeric
     * coordinate is dropped; otherwise the user's entry is updated or added,
     * and a position of the current user is remembered.
     */
    method UpdateUserMarker(m: Incoming, now: int)
      modifies this
      ensures markers == Upserted(old(markers), currentUserId, m, now)
      ensures Accepted(m) && currentUserId == m.userId ==> lastKnownPosition == Some(PositionOf(m))
      ensures !(Accepted(m) && currentUserId == m.userId) ==> lastKnownPosition == old(lastKnownPosition)
      ensures currentUserId == old(currentUserId)
      ensures reconnectAttempts == old(reconnectAttempts) && scheduledReconnects == old(scheduledReconnects)
    {
      if !Accepted(m) {
        return;
      }
      var userId := m.userId.value;
      var position := PositionOf(m);
      var isCurrentUser := currentUserId == Some(userId);
      if userId in markers {
        var e := markers[userId];
        markers := markers[userId := e.(position := position, accuracy := AccuracyOf(m), lastUpdated := now,
                                        username := UsernameOf(m))];
      } else {
        markers := markers[userId := Marker(position, AccuracyOf(m), now, isCurrentUser, UsernameOf(m))];
      }
      if isCurrentUser {
        lastKnownPosition := Some(position);
      }
    }

    /** `processIncomingData`: the message is routed, then removed or applied. */
    method ProcessIncomingData(m: Incoming, now: int)
      modifies this
      ensures Route(m).Ignore? ==> markers == old(markers)
      ensures Route(m).Remove? ==> markers == old(markers) - {Route(m).userId}
      ensures Route(m).Update? ==> markers == Upserted(old(markers), currentUserId, m, now)
      ensures Route(m).Update? && Accepted(m) && currentUserId == m.userId ==> lastKnownPosition == Some(PositionOf(m))
      ensures !(Route(m).Update? && Accepted(m) && currentUserId == m.userId) ==> lastKnownPosition == old(lastKnownPosition)
      ensures currentUserId == old(currentUserId)
      ensures reconnectAttempts == old(reconnectAttempts) && scheduledReconnects == old(scheduledReconnects)
    {
      match Route(m)
      case Ignore =>
      case Remove(userId) => RemoveUserMarker(userId);
      case Update(_) => UpdateUserMarker(m, now);
    }

    /** The minute sweep: every stale marker of another user is removed, one key at a time. */
    method SweepStaleMarkers(now: int)
      modifies this
      ensures markers == Swept(old(markers), currentUserId, now)
      ensures currentUserId == old(currentUserId) && lastKnownPosition == old(lastKnownPosition)
      ensures reconnectAttempts == old(reconnectAttempts) && scheduledReconnects == old(scheduledReconnects)
    {
      var m0 := markers;
      var rest := markers.Keys;
      while rest != {}
        invariant rest <= m0.Keys
        invariant markers == SweptExcept(m0, rest, currentUserId, now)
        invariant currentUserId == old(currentUserId) && lastKnownPosition == old(lastKnownPosition)
        invariant reconnectAttempts == old(reconnectAttempts) && scheduledReconnects == old(scheduledReconnects)
        decreases |rest|
      {
        var userId :| userId in rest;
        if Stale(currentUserId, userId, m0[userId], now) {
          RemoveUserMarker(userId);
        }
        assert markers == SweptExcept(m0, rest - {userId}, currentUserId, now);
        rest := rest - {userId};
      }
      assert SweptExcept(m0, {}, currentUserId, now) == Swept(m0, currentUserId, now);
    }

    /** `handleSocketOpen`: a successful connection resets the counter. */
    method OnSocketOpen()
      modifies this
      ensures Valid()
      ensures reconnectAttempts == 0
      ensures markers == old(markers) && currentUserId == old(currentUserId)
      ensures lastKnownPosition == old(lastKnownPosition) && scheduledReconnects == old(scheduledReconnects)
    {
      reconnectAttempts := 0;
    }

    /**
     * `handleSocketClose`: the current user's marker is removed; below five
     * attempts a reconnect is scheduled and counted, otherwise the client
     * gives up and clears every marker.
     */
    method OnSocketClose()
      requires Valid()
      modifies this
      ensures Valid()
      ensures ReconnectState() == AfterClose(old(ReconnectState()))
      ensures old(reconnectAttempts) < MaxReconnectAttempts ==>
                markers == (if currentUserId.Some? then old(markers) - {currentUserId.value} else old(markers))
      ensures old(reconnectAttempts) >= MaxReconnectAttempts ==> markers == map[]
      ensures currentUserId == old(currentUserId) && lastKnownPosition == old(lastKnownPosition)
    {
      if currentUserId.Some? && currentUserId.value in markers {
        RemoveUserMarker(currentUserId.value);
      }
      if reconnectAttempts < MaxReconnectAttempts {
        scheduledReconnects := scheduledReconnects + 1;
        reconnectAttempts := reconnectAttempts + 1;
      } else {
        ClearAllMarkers();
      }
    }
  }
}
