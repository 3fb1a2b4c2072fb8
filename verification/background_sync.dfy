/** The `sync` listener and its two replay loops, `syncPendingTasks` and
    `syncPendingNotes`. Each loop reads the pending records once, POSTs every
    record in order, and removes a record by id only when the response is
    `ok`; an error thrown for one record is caught and the loop goes on. The
    pending-record store is an abstract queue; the outcome of each POST is a
    parameter. */
module BackgroundSync {
  import opened Base
  import opened Config

  type RecordId = string

  datatype PendingRecord = PendingRecord(id: RecordId, payload: Json)

  /** What POSTing one record did: a response with a status, or a thrown error. */
  datatype PostOutcome = Responded(status: int) | Thrown

  /** The server took the record: the response's `ok` getter is true. */
  predicate Accepted(o: PostOutcome) {
    o.Responded? && IsOkStatus(o.status)
  }

  predicate DistinctIds(queue: seq<PendingRecord>) {
    forall i, j :: 0 <= i < j < |queue| ==> queue[i].id != queue[j].id
  }

  /** The queue after removing by id every id in `ids`; the rest stay in order. */
  function RemoveIds(queue: seq<PendingRecord>, ids: set<RecordId>): (r: seq<PendingRecord>)
    ensures forall x :: x in r <==> x in queue && x.id !in ids
    ensures |r| <= |queue|
  {
    if queue == [] then []
    else if queue[0].id in ids then RemoveIds(queue[1..], ids)
    else [queue[0]] + RemoveIds(queue[1..], ids)
  }

  lemma {:induction false} RemoveIdsTwice(queue: seq<PendingRecord>, a: set<RecordId>, b: set<RecordId>)
    ensures RemoveIds(RemoveIds(queue, a), b) == RemoveIds(queue, a + b)
  {
    if queue != [] {
      RemoveIdsTwice(queue[1..], a, b);
      if queue[0].id !in a {
        assert RemoveIds(queue, a)[1..] == RemoveIds(queue[1..], a);
      }
    }
  }

  /** The ids of the records whose POST was accepted. */
  function AcceptedIds(queue: seq<PendingRecord>, outcomes: seq<PostOutcome>): set<RecordId>
    requires |outcomes| == |queue|
  {
    set j | 0 <= j < |queue| && Accepted(outcomes[j]) :: queue[j].id
  }

  lemma AcceptedIdsExtend(queue: seq<PendingRecord>, outcomes: seq<PostOutcome>, i: nat)
    requires |outcomes| == |queue| && i < |queue|
    ensures AcceptedIds(queue[..i + 1], outcomes[..i + 1]) ==
      AcceptedIds(queue[..i], outcomes[..i]) + (if Accepted(outcomes[i]) then {queue[i].id} else {})
  {
    var q, o := queue[..i + 1], outcomes[..i + 1];
    assert q[..i] == queue[..i] && o[..i] == outcomes[..i];
    assert q[i] == queue[i] && o[i] == outcomes[i];
  }

  /** Positional reference: every record whose own POST was not accepted,
      in queue order. */
  function Unconfirmed(queue: seq<PendingRecord>, outcomes: seq<PostOutcome>): (r: seq<PendingRecord>)
    requires |outcomes| == |queue|
  {
    if queue == [] then []
    else (if Accepted(outcomes[0]) then [] else [queue[0]]) + Unconfirmed(queue[1..], outcomes[1..])
  }

  /** One pass of the replay loop. `posted` lists the POSTs made, in order;
      `remaining` is the queue afterwards. */
  method SyncPass(queue: seq<PendingRecord>, outcomes: seq<PostOutcome>)
    returns (posted: seq<PendingRecord>, remaining: seq<PendingRecord>)
    requires |outcomes| == |queue|
    // Every record is submitted exactly once, in queue order, whatever the
    // earlier records' outcomes were.
    ensures posted == queue
    // Exactly the records carrying an accepted id are gone.
    ensures remaining == RemoveIds(queue, AcceptedIds(queue, outcomes))
    ensures forall x :: x in remaining <==> x in queue && x.id !in AcceptedIds(queue, outcomes)
  {
    posted := [];
    remaining := queue;
    ghost var removed: set<RecordId> := {};
    RemoveNothing(queue);
    for i := 0 to |queue|
      invariant posted == queue[..i]
      invariant removed == AcceptedIds(queue[..i], outcomes[..i])
      invariant remaining == RemoveIds(queue, removed)
    {
      AcceptedIdsExtend(queue, outcomes, i);
      posted := posted + [queue[i]];
      if Accepted(outcomes[i]) {
        RemoveIdsTwice(queue, removed, {queue[i].id});
        remaining := RemoveIds(remaining, {queue[i].id});
        removed := removed + {queue[i].id};
      }
    }
    assert queue[..|queue|] == queue && outcomes[..|outcomes|] == outcomes;
  }

  lemma {:induction false} RemoveNothing(queue: seq<PendingRecord>)
    ensures RemoveIds(queue, {}) == queue
  {
    if queue != [] {
      RemoveNothing(queue[1..]);
    }
  }

  /** With distinct ids, an id is accepted exactly when its own record's POST was. */
  lemma AcceptedIdsExact(queue: seq<PendingRecord>, outcomes: seq<PostOutcome>)
    requires |outcomes| == |queue| && DistinctIds(queue)
    ensures forall j :: 0 <= j < |queue| ==>
      (queue[j].id in AcceptedIds(queue, outcomes) <==> Accepted(outcomes[j]))
  {
  }

  lemma {:induction false} RemoveMatchingIds(queue: seq<PendingRecord>, outcomes: seq<PostOutcome>, ids: set<RecordId>)
    requires |outcomes| == |queue|
    requires forall j :: 0 <= j < |queue| ==> (queue[j].id in ids <==> Accepted(outcomes[j]))
    ensures RemoveIds(queue, ids) == Unconfirmed(queue, outcomes)
  {
    if queue != [] {
      assert forall j :: 0 <= j < |queue| - 1 ==> queue[1..][j] == queue[j + 1] && outcomes[1..][j] == outcomes[j + 1];
      RemoveMatchingIds(queue[1..], outcomes[1..], ids);
    }
  }

  /** With distinct ids the pass leaves exactly the records whose own POST
      was not accepted, in their original order: a failure or a thrown error
      on one record changes nothing about the others. */
  lemma {:induction false} PassKeepsExactlyUnaccepted(queue: seq<PendingRecord>, outcomes: seq<PostOutcome>)
    requires |outcomes| == |queue| && DistinctIds(queue)
    ensures RemoveIds(queue, AcceptedIds(queue, outcomes)) == Unconfirmed(queue, outcomes)
    ensures forall j :: 0 <= j < |queue| ==>
      (queue[j] in RemoveIds(queue, AcceptedIds(queue, outcomes)) <==> !Accepted(outcomes[j]))
  {
    AcceptedIdsExact(queue, outcomes);
    RemoveMatchingIds(queue, outcomes, AcceptedIds(queue, outcomes));
  }

  /** Three queued records: the server accepts the first and the third and
      rejects the second. Only the second is left. The same holds when the
      second POST throws. */
  lemma ThreeRecordScenario(a: PendingRecord, b: PendingRecord, c: PendingRecord)
    requires a.id != b.id && b.id != c.id && a.id != c.id
    ensures RemoveIds([a, b, c], AcceptedIds([a, b, c], [Responded(200), Responded(500), Responded(201)])) == [b]
    ensures RemoveIds([a, b, c], AcceptedIds([a, b, c], [Responded(204), Thrown, Responded(200)])) == [b]
  {
    var q := [a, b, c];
    assert q[1..] == [b, c] && q[1..][1..] == [c] && q[1..][1..][1..] == [];
    var o1 := [Responded(200), Responded(500), Responded(201)];
    assert o1[1..] == [Responded(500), Responded(201)] && o1[1..][1..] == [Responded(201)];
    var o2 := [Responded(204), Thrown, Responded(200)];
    assert o2[1..] == [Thrown, Responded(200)] && o2[1..][1..] == [Responded(200)];
    assert Unconfirmed(q[1..][1..], o1[1..][1..]) == [];
    assert Unconfirmed(q[1..], o1[1..]) == [b];
    assert Unconfirmed(q[1..][1..], o2[1..][1..]) == [];
    assert Unconfirmed(q[1..], o2[1..]) == [b];
    PassKeepsExactlyUnaccepted(q, o1);
    PassKeepsExactlyUnaccepted(q, o2);
  }

  /** Removal is by id, so when two records share an id, an accepted POST of
      one also removes the other, even though that one's own POST failed. */
  lemma SharedIdRemovedTogether(a: PendingRecord, b: PendingRecord)
    requires a.id == b.id
    ensures RemoveIds([a, b], AcceptedIds([a, b], [Responded(200), Responded(500)])) == []
  {
    var q, o := [a, b], [Responded(200), Responded(500)];
    assert Accepted(o[0]) && q[0].id == a.id;
    assert a.id in AcceptedIds(q, o);
    assert q[1..] == [b];
  }

  /** The two queues the sync tags select between. */
  datatype Queues = Queues(tasks: seq<PendingRecord>, notes: seq<PendingRecord>)

  /** One POST of the replay loop: the endpoint and the record in its body. */
  datatype Post = Post(endpoint: string, record: PendingRecord)

  function PostsTo(endpoint: string, records: seq<PendingRecord>): (posts: seq<Post>)
    ensures |posts| == |records|
    ensures forall i :: 0 <= i < |records| ==> posts[i] == Post(endpoint, records[i])
  {
    seq(|records|, i requires 0 <= i < |records| => Post(endpoint, records[i]))
  }

  /** The `sync` listener: `sync-tasks` replays the task queue against the
      task endpoint, `sync-notes` the note queue against the note endpoint,
      and any other tag does nothing. */
  method OnSync(tag: string, q: Queues, outcomes: seq<PostOutcome>) returns (posts: seq<Post>, q': Queues)
    requires tag == SyncTasksTag ==> |outcomes| == |q.tasks|
    requires tag == SyncNotesTag ==> |outcomes| == |q.notes|
    ensures tag == SyncTasksTag ==>
      && posts == PostsTo(TasksApi, q.tasks)
      && q' == Queues(RemoveIds(q.tasks, AcceptedIds(q.tasks, outcomes)), q.notes)
    ensures tag == SyncNotesTag ==>
      && posts == PostsTo(NotesApi, q.notes)
      && q' == Queues(q.tasks, RemoveIds(q.notes, AcceptedIds(q.notes, outcomes)))
    ensures tag != SyncTasksTag && tag != SyncNotesTag ==> posts == [] && q' == q
  {
    posts, q' := [], q;
    if tag == SyncTasksTag {
      var sent, left := SyncPass(q.tasks, outcomes);
      posts, q' := PostsTo(TasksApi, sent), q'.(tasks := left);
    }
    if tag == SyncNotesTag {
      var sent, left := SyncPass(q.notes, outcomes);
      posts, q' := PostsTo(NotesApi, sent), q'.(notes := left);
    }
  }
}
