// The long poll: a reader that advances to the highest sequence number it has seen
// misses nothing, repeats nothing and polls in order.
module RoomPolling {
  import opened Common
  import opened Rooms
  import opened RoomInvariants
  import opened RoomRuns

  const MAX_WAIT_SECS := 120

  // The rows with a sequence number above `since`, in table order.
  function NewerThan(rows: seq<Row>, since: nat): seq<Row> {
    if rows == [] then []
    else
      var last := rows[|rows| - 1];
      NewerThan(rows[..|rows| - 1], since) + (if since < last.num then [last] else [])
  }

  function HighestSeen(since: nat, batch: seq<Row>): nat {
    if batch == [] then since else batch[|batch| - 1].num
  }

  datatype Reader = Reader(received: seq<Row>, since: nat)

  // A reader polling the committed versions `polls`, one after another, from 0.
  function Polled(history: seq<Room>, polls: seq<nat>): Reader
    requires forall k :: 0 <= k < |polls| ==> polls[k] < |history|
  {
    if polls == [] then Reader([], 0)
    else
      var before := Polled(history, polls[..|polls| - 1]);
      var batch := NewerThan(history[polls[|polls| - 1]].rows, before.since);
      Reader(before.received + batch, HighestSeen(before.since, batch))
  }

  lemma {:induction false} NewerThanIsSuffix(rows: seq<Row>, since: nat)
    requires NumberedFromOne(rows)
    ensures NewerThan(rows, since) == if since < |rows| then rows[since..] else []
  {
    if rows != [] {
      var n := |rows| - 1;
      NewerThanIsSuffix(rows[..n], since);
      if since < n {
        assert rows[..n][since..] + [rows[n]] == rows[since..];
      } else if since == n {
        assert rows[n..] == [rows[n]];
      }
    }
  }

  // The reader holds the first messages of `rows`, up to text.
  predicate Caught(got: Reader, rows: seq<Row>) {
    && |got.received| == got.since <= |rows|
    && forall k :: 0 <= k < |got.received| ==> SameMessage(got.received[k], rows[k])
  }

  lemma OnePollCatchesUp(got: Reader, seen: seq<Row>, latest: seq<Row>)
    requires NumberedFromOne(seen) && Caught(got, latest) && got.since <= |seen| <= |latest|
    requires forall k :: 0 <= k < |seen| ==> SameMessage(seen[k], latest[k])
    ensures var batch := NewerThan(seen, got.since);
            var next := Reader(got.received + batch, HighestSeen(got.since, batch));
            Caught(next, latest) && next.since == |seen|
  {
    NewerThanIsSuffix(seen, got.since);
    var batch := seen[got.since..];
    assert batch == NewerThan(seen, got.since);
    SuffixCatchesUp(got, seen, latest, batch);
  }

  lemma SuffixCatchesUp(got: Reader, seen: seq<Row>, latest: seq<Row>, batch: seq<Row>)
    requires NumberedFromOne(seen) && Caught(got, latest) && got.since <= |seen| <= |latest|
    requires forall k :: 0 <= k < |seen| ==> SameMessage(seen[k], latest[k])
    requires batch == seen[got.since..]
    ensures Caught(Reader(got.received + batch, HighestSeen(got.since, batch)), latest)
    ensures HighestSeen(got.since, batch) == |seen|
  {
    var all := got.received + batch;
    forall k | 0 <= k < |all| ensures SameMessage(all[k], latest[k]) {
      if k < got.since {
        assert all[k] == got.received[k];
      } else {
        assert all[k] == seen[k];
      }
    }
  }

  // After any number of polls the reader holds every message of the version it read
  // last, once each and in order; a later tombstone changes only text and deletion.
  lemma {:induction false} PollingIsGapFree(w: World, polls: seq<nat>, latest: nat)
    requires WorldInv(w) && polls != [] && polls[|polls| - 1] <= latest < |w.history|
    requires forall k :: 0 <= k < |polls| ==> polls[k] < |w.history|
    requires forall k :: 0 < k < |polls| ==> polls[k - 1] <= polls[k]
    ensures Caught(Polled(w.history, polls), w.history[latest].rows)
    ensures Polled(w.history, polls).since == |w.history[polls[|polls| - 1]].rows|
  {
    var n := |polls| - 1;
    var v := polls[n];
    HistoryFollows(w, v, latest);
    assert RoomInv(w.history[v]);
    var got := Polled(w.history, polls[..n]);
    if n == 0 {
      assert got == Reader([], 0);
    } else {
      PollingIsGapFree(w, polls[..n], latest);
      HistoryFollows(w, polls[n - 1], v);
    }
    OnePollCatchesUp(got, w.history[v].rows, w.history[latest].rows);
  }

  // The same for every run of the room from its creation.
  lemma EveryPollerSeesAll(w: World, steps: seq<Step>, polls: seq<nat>)
    requires Init(w) && Runs(w, steps) && polls != []
    requires forall k :: 0 <= k < |polls| ==> polls[k] < |After(w, steps).history|
    requires forall k :: 0 < k < |polls| ==> polls[k - 1] <= polls[k]
    ensures var h := After(w, steps).history;
            var got, seen := Polled(h, polls), h[polls[|polls| - 1]].rows;
            && |got.received| == |seen|
            && forall k :: 0 <= k < |seen| ==>
                 got.received[k].num == seen[k].num == k + 1
                 && got.received[k].sender == seen[k].sender && got.received[k].kind == seen[k].kind
                 && (got.received[k].text == seen[k].text || seen[k].deleted)
  {
    RunsKeepInv(w, steps);
    var t := After(w, steps);
    PollingIsGapFree(t, polls, polls[|polls| - 1]);
    assert RoomInv(t.history[polls[|polls| - 1]]);
  }

  // ---------- One long poll ----------

  datatype Answer =
    | Gone
    | NotOpenedYet(messages: seq<Row>)
    | Messages(messages: seq<Row>, open: bool)

  predicate NotOpened(r: Room) {
    r.status == Open && r.requiresOwnerOpen && r.openedAt == None
  }

  // Nothing to report yet: an opened, open room with no newer message.
  predicate KeepsWaiting(reading: Option<Room>, since: nat) {
    reading.Some? && !NotOpened(reading.value) && reading.value.status == Open
    && NewerThan(reading.value.rows, since) == []
  }

  function AnswerFor(reading: Option<Room>, since: nat): Answer {
    if reading == None then Gone
    else if NotOpened(reading.value) then NotOpenedYet(NewerThan(reading.value.rows, since))
    else Messages(NewerThan(reading.value.rows, since), reading.value.status == Open)
  }

  function Capped(wait: int): nat {
    if wait < 0 then 0 else if MAX_WAIT_SECS < wait then MAX_WAIT_SECS else wait
  }

  // The first reading from `k` on with something to say, or else the one at the deadline.
  function Answering(readings: seq<Option<Room>>, since: nat, k: nat, deadline: nat): (i: nat)
    requires k <= deadline < |readings|
    ensures k <= i <= deadline
    ensures forall j :: k <= j < i ==> KeepsWaiting(readings[j], since)
    ensures i < deadline ==> !KeepsWaiting(readings[i], since)
    decreases deadline - k
  {
    if k < deadline && KeepsWaiting(readings[k], since) then Answering(readings, since, k + 1, deadline) else k
  }

  // `readings[k]` is what the k-th one-second iteration reads, on its own session:
  // `wait` is a ceiling, and only a full wait ends with nothing.
  method PollMessages(readings: seq<Option<Room>>, since: nat, wait: int) returns (answer: Answer)
    requires MAX_WAIT_SECS < |readings|
    ensures answer == AnswerFor(readings[Answering(readings, since, 0, Capped(wait))], since)
    // A gone room is reported as gone, an unopened one as such, any other with its newer
    // messages and whether it is open; the wait is cut to between nought and two minutes.
    ensures var i := Answering(readings, since, 0, if wait < 0 then 0 else if 120 < wait then 120 else wait);
            match readings[i]
            case None => answer == Gone
            case Some(r) =>
              answer == if r.status == Open && r.requiresOwnerOpen && r.openedAt == None
                        then NotOpenedYet(NewerThan(r.rows, since)) else Messages(NewerThan(r.rows, since), r.status == Open)
  {
    var deadline := Capped(wait);
    var elapsed := 0;
    while true
      invariant 0 <= elapsed <= deadline
      invariant Answering(readings, since, 0, deadline) == Answering(readings, since, elapsed, deadline)
      decreases deadline - elapsed
    {
      var reading := readings[elapsed];
      if reading == None { return Gone; }
      var messages := NewerThan(reading.value.rows, since);
      if NotOpened(reading.value) { return NotOpenedYet(messages); }
      if messages != [] || reading.value.status != Open || deadline <= elapsed {
        return Messages(messages, reading.value.status == Open);
      }
      elapsed := elapsed + 1;
    }
  }

  // Exactly the rows numbered above `since`, in order.
  lemma {:induction false} NewerThanIff(rows: seq<Row>, since: nat, row: Row)
    ensures row in NewerThan(rows, since) <==> row in rows && since < row.num
  {
    if rows != [] {
      var rest := rows[..|rows| - 1];
      NewerThanIff(rest, since, row);
      assert rows == rest + [rows[|rows| - 1]];
    }
  }

  // An iteration keeps waiting exactly when the room is there, has been opened or needs no
  // opening, is open, and has nothing newer.
  lemma KeepsWaitingIff(reading: Option<Room>, since: nat)
    ensures KeepsWaiting(reading, since) <==>
            (reading.Some? && reading.value.status == Open
             && (!reading.value.requiresOwnerOpen || reading.value.openedAt.Some?)
             && forall row :: row in reading.value.rows ==> row.num <= since)
  {
    if reading.Some? {
      var rows := reading.value.rows;
      if NewerThan(rows, since) != [] {
        NewerThanIff(rows, since, NewerThan(rows, since)[0]);
      }
      forall row | row in rows && since < row.num ensures NewerThan(rows, since) != [] {
        NewerThanIff(rows, since, row);
      }
    }
  }
}
