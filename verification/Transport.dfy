/**
  The JSON-RPC client of the Codex app-server (services/codex/transport.py): requests waiting for their
  response by id, and a bounded queue of notifications with a close sentinel.
*/
module Transport {
  import opened KeyStore

  // ---------- subsequences ----------

  /** `a` is what remains of `b` when some elements are left out, in the same order. */
  predicate Subsequence<T(==)>(a: seq<T>, b: seq<T>) {
    if a == [] then true
    else if b == [] then false
    else if a[|a| - 1] == b[|b| - 1] then Subsequence(a[..|a| - 1], b[..|b| - 1])
    else Subsequence(a, b[..|b| - 1])
  }

  lemma SubsequenceSnoc<T>(a: seq<T>, b: seq<T>, x: T)
    requires Subsequence(a, b)
    ensures Subsequence(a + [x], b + [x])
  {
    assert (a + [x])[..|a|] == a && (b + [x])[..|b|] == b;
  }

  /** Dropping the last element of a subsequence leaves a subsequence. */
  lemma {:induction false} SubsequenceInit<T>(a: seq<T>, b: seq<T>)
    requires a != [] && Subsequence(a, b)
    ensures Subsequence(a[..|a| - 1], b)
    decreases |b|, 0
  {
    if a[|a| - 1] == b[|b| - 1] {
      SubsequenceSkip(a[..|a| - 1], b[..|b| - 1], b[|b| - 1]);
      assert b[..|b| - 1] + [b[|b| - 1]] == b;
    } else {
      SubsequenceInit(a, b[..|b| - 1]);
      SubsequenceSkip(a[..|a| - 1], b[..|b| - 1], b[|b| - 1]);
      assert b[..|b| - 1] + [b[|b| - 1]] == b;
    }
  }

  /** An element more on the right does not hurt. */
  lemma {:induction false} SubsequenceSkip<T>(a: seq<T>, b: seq<T>, x: T)
    requires Subsequence(a, b)
    ensures Subsequence(a, b + [x])
    decreases |b|, 1
  {
    assert (b + [x])[..|b|] == b;
    if a != [] && a[|a| - 1] == x {
      SubsequenceInit(a, b);
    }
  }

  /** Leaving out one element anywhere. */
  lemma {:induction false} SubsequenceWithout<T>(a: seq<T>, x: T, c: seq<T>, b: seq<T>)
    requires Subsequence(a + [x] + c, b)
    ensures Subsequence(a + c, b)
    decreases |b|
  {
    if c == [] {
      SubsequenceInit(a + [x] + c, b);
      assert (a + [x] + c)[..|a + [x] + c| - 1] == a + c;
    } else {
      var whole := a + [x] + c;
      var last, init := c[|c| - 1], c[..|c| - 1];
      assert whole[|whole| - 1] == last && whole[..|whole| - 1] == a + [x] + init;
      assert (a + c)[|a + c| - 1] == last && (a + c)[..|a + c| - 1] == a + init;
      if last == b[|b| - 1] {
        SubsequenceWithout(a, x, init, b[..|b| - 1]);
      } else {
        SubsequenceWithout(a, x, c, b[..|b| - 1]);
      }
    }
  }

  /** A subsequence keeps the order: it holds no more than the whole, and only its elements. */
  lemma {:induction false} SubsequenceWithin<T>(a: seq<T>, b: seq<T>)
    requires Subsequence(a, b)
    ensures |a| <= |b| && multiset(a) <= multiset(b)
    decreases |b|
  {
    if a != [] {
      var b' := b[..|b| - 1];
      assert b == b' + [b[|b| - 1]];
      if a[|a| - 1] == b[|b| - 1] {
        assert a == a[..|a| - 1] + [a[|a| - 1]];
        SubsequenceWithin(a[..|a| - 1], b');
      } else {
        SubsequenceWithin(a, b');
      }
    }
  }

  // ---------- the client ----------

  datatype Note = Note(method_: string, params: string, turnId: Option<string>)

  /** A queue slot: a notification, or None, the sentinel that ends the consumer's iteration. */
  type Slot = Option<Note>

  function Notes(slots: seq<Slot>): seq<Note> {
    if slots == [] then []
    else Notes(slots[..|slots| - 1]) + (if slots[|slots| - 1].Some? then [slots[|slots| - 1].value] else [])
  }

  lemma {:induction false} NotesConcat(a: seq<Slot>, b: seq<Slot>)
    ensures Notes(a + b) == Notes(a) + Notes(b)
  {
    if b == [] {
      assert a + b == a;
    } else {
      NotesConcat(a, b[..|b| - 1]);
      assert (a + b)[..|a + b| - 1] == a + b[..|b| - 1];
    }
  }

  lemma NotesCons(slots: seq<Slot>)
    requires slots != []
    ensures Notes(slots) == (if slots[0].Some? then [slots[0].value] else []) + Notes(slots[1..])
  {
    NotesConcat(slots[..1], slots[1..]);
    assert slots[..1] + slots[1..] == slots;
    assert slots[..1][..0] == [];
  }

  lemma NotesSnoc(slots: seq<Slot>, x: Slot)
    ensures Notes(slots + [x]) == Notes(slots) + (if x.Some? then [x.value] else [])
  {
    assert (slots + [x])[..|slots|] == slots;
  }

  /** The queue's invariant: nothing is reordered or repeated, and every note is consumed, queued or dropped. */
  ghost predicate Accounted(consumed: seq<Note>, queue: seq<Slot>, arrived: seq<Note>, dropped: nat) {
    && Subsequence(consumed + Notes(queue), arrived)
    && |arrived| == |consumed| + |Notes(queue)| + dropped
  }

  lemma ArrivalQueued(consumed: seq<Note>, queue: seq<Slot>, arrived: seq<Note>, dropped: nat, note: Note)
    requires Accounted(consumed, queue, arrived, dropped)
    ensures Accounted(consumed, queue + [Some(note)], arrived + [note], dropped)
  {
    NotesSnoc(queue, Some(note));
    SubsequenceSnoc(consumed + Notes(queue), arrived, note);
    assert consumed + (Notes(queue) + [note]) == (consumed + Notes(queue)) + [note];
  }

  lemma ArrivalDropped(consumed: seq<Note>, queue: seq<Slot>, arrived: seq<Note>, dropped: nat, note: Note)
    requires Accounted(consumed, queue, arrived, dropped)
    ensures Accounted(consumed, queue, arrived + [note], dropped + 1)
  {
    SubsequenceSkip(consumed + Notes(queue), arrived, note);
  }

  lemma HeadTaken(consumed: seq<Note>, queue: seq<Slot>, arrived: seq<Note>, dropped: nat)
    requires queue != [] && Accounted(consumed, queue, arrived, dropped)
    ensures Accounted(if queue[0].Some? then consumed + [queue[0].value] else consumed, queue[1..], arrived, dropped)
  {
    NotesCons(queue);
    var rest := Notes(queue[1..]);
    if queue[0].Some? {
      assert consumed + ([queue[0].value] + rest) == (consumed + [queue[0].value]) + rest;
    } else {
      assert [] + rest == rest;
    }
  }

  lemma HeadEvicted(consumed: seq<Note>, queue: seq<Slot>, arrived: seq<Note>, dropped: nat)
    requires queue != [] && Accounted(consumed, queue, arrived, dropped)
    ensures Accounted(consumed, queue[1..], arrived, dropped + if queue[0].Some? then 1 else 0)
  {
    NotesCons(queue);
    var rest := Notes(queue[1..]);
    if queue[0].Some? {
      assert consumed + ([queue[0].value] + rest) == consumed + [queue[0].value] + rest;
      SubsequenceWithout(consumed, queue[0].value, rest, arrived);
    } else {
      assert [] + rest == rest;
    }
  }

  lemma SentinelQueued(consumed: seq<Note>, queue: seq<Slot>, arrived: seq<Note>, dropped: nat)
    requires Accounted(consumed, queue, arrived, dropped)
    ensures Accounted(consumed, queue + [None], arrived, dropped)
  {
    NotesSnoc(queue, None);
    assert Notes(queue) + [] == Notes(queue);
  }

  datatype Answer = Result(value: string) | Error(code: int, message: string) | Lost(reason: string)

  /** A response frame, whose id may be anything the server sends. */
  datatype Response = Response(id: int, answer: Answer)

  const CONNECT_RETRIES := 3

  datatype Link = Down | Up | Closed

  class AppServerClient {
    const capacity: int                // maxsize of the asyncio.Queue: not positive means unbounded
    var link: Link                     // whether _ws is set, and _explicit_close
    var nextId: nat
    var pending: set<nat>              // ids with an entry in _pending
    var answers: map<nat, Answer>      // futures that are done
    var queue: seq<Slot>
    ghost var arrived: seq<Note>
    ghost var consumed: seq<Note>
    ghost var dropped: nat
    ghost var waiting: set<nat>        // requests whose caller still awaits its future

    /** Queue bound, order and accounting of notifications. */
    ghost predicate QueueOk()
      reads this
    {
      && (0 < capacity ==> |queue| <= capacity)
      && Accounted(consumed, queue, arrived, dropped)
    }

    /** A request is waiting unanswered only while it is registered; without a connection nothing is registered. */
    ghost predicate RequestsOk()
      reads this
    {
      && (forall id :: id in pending ==> id < nextId)
      && (forall id :: id in answers ==> id < nextId)
      && (forall id :: id in waiting ==> id in pending || id in answers)
      && (!link.Up? ==> forall id :: id in pending ==> id in answers)
    }

    ghost predicate Valid()
      reads this
    {
      QueueOk() && RequestsOk()
    }

    constructor (capacity: int)
      ensures Valid() && this.capacity == capacity && link == Down && queue == [] && arrived == []
    {
      this.capacity := capacity;
      link, nextId, pending, answers, queue := Down, 1, {}, map[], [];
      arrived, consumed, dropped, waiting := [], [], 0, {};
      new;
      assert consumed + Notes(queue) == [];
    }

    predicate Full()
      reads this
    {
      0 < capacity && capacity <= |queue|
    }

    /** A sentinel finds the queue full, with a note in front. */
    predicate Evicts(queue: seq<Slot>)
    {
      0 < capacity <= |queue| && queue[0].Some?
    }

    /** Tries the server up to three times, unless closed for good; a connection that is up is left alone. */
    method Connect(reachable: nat -> bool) returns (ok: bool)
      requires Valid()
      modifies this`link
      ensures Valid()
      ensures ok <==> !old(link).Closed? && (old(link).Up? || exists attempt :: 1 <= attempt <= 3 && reachable(attempt))
      ensures link == if ok then Up else old(link)
    {
      if link.Closed? {
        return false;
      }
      if link.Up? {
        return true;
      }
      var attempt := 1;
      while attempt <= CONNECT_RETRIES
        invariant 1 <= attempt <= CONNECT_RETRIES + 1
        invariant forall a :: 1 <= a < attempt ==> !reachable(a)
      {
        if reachable(attempt) {
          link := Up;
          return true;
        }
        attempt := attempt + 1;
      }
      return false;
    }

    /** Registers a fresh id before the frame is sent; refused unless the connection is up. */
    method BeginRequest() returns (id: Option<nat>)
      requires Valid()
      modifies this`nextId, this`pending, this`waiting
      ensures Valid()
      ensures id.Some? <==> link.Up?
      ensures id.Some? ==> id.value == old(nextId) && id.value !in old(pending) && id.value !in answers
      ensures id.Some? ==> pending == old(pending) + {id.value} && waiting == old(waiting) + {id.value}
      ensures id.None? ==> pending == old(pending) && waiting == old(waiting)
    {
      if !link.Up? {
        return None;
      }
      id := Some(nextId);
      nextId := nextId + 1;
      pending, waiting := pending + {id.value}, waiting + {id.value};
    }

    /** The caller's await ends, with an answer, by timeout or cancellation: the entry goes. */
    method EndRequest(id: nat)
      requires Valid()
      modifies this`pending, this`waiting
      ensures Valid() && pending == old(pending) - {id} && waiting == old(waiting) - {id}
    {
      pending, waiting := pending - {id}, waiting - {id};
    }

    /** A response settles exactly the request with its own id, and only if that is registered and not done. */
    method ResolveResponse(r: Response)
      requires Valid()
      modifies this`answers
      ensures Valid()
      ensures answers == if r.id in pending && r.id !in old(answers) then old(answers)[r.id as nat := r.answer] else old(answers)
    {
      if r.id < 0 || r.id as nat !in pending || r.id as nat in answers {
        return;
      }
      answers := answers[r.id as nat := r.answer];
    }

    /** put_nowait; when the queue is full the arriving note is the one that is dropped. */
    method EnqueueNotification(note: Note)
      requires Valid()
      modifies this`queue, this`arrived, this`dropped
      ensures Valid() && arrived == old(arrived) + [note]
      ensures capacity <= 0 || |old(queue)| < capacity ==> queue == old(queue) + [Some(note)] && dropped == old(dropped)
      ensures 0 < capacity <= |old(queue)| ==> queue == old(queue) && dropped == old(dropped) + 1
    {
      hide Accounted;
      if Full() {
        ArrivalDropped(consumed, queue, arrived, dropped, note);
        dropped := dropped + 1;
      } else {
        ArrivalQueued(consumed, queue, arrived, dropped, note);
        queue := queue + [Some(note)];
      }
      arrived := arrived + [note];
    }

    /** The consumer's get: None ends its iteration. */
    method Take() returns (slot: Slot)
      requires Valid() && queue != []
      modifies this`queue, this`consumed
      ensures Valid() && slot == old(queue)[0] && queue == old(queue)[1..]
      ensures consumed == if slot.Some? then old(consumed) + [slot.value] else old(consumed)
    {
      hide Accounted;
      HeadTaken(consumed, queue, arrived, dropped);
      slot := queue[0];
      if slot.Some? {
        consumed := consumed + [slot.value];
      }
      queue := queue[1..];
    }

    /** The sentinel always gets in, at the end; a full queue pays with its oldest slot. */
    method WakeNotifications()
      requires Valid()
      modifies this`queue, this`dropped
      ensures Valid()
      ensures queue == (if 0 < capacity <= |old(queue)| then old(queue)[1..] else old(queue)) + [None]
      ensures dropped == old(dropped) + if old(Evicts(queue)) then 1 else 0
    {
      hide Accounted;
      if Full() {
        HeadEvicted(consumed, queue, arrived, dropped);
        dropped := dropped + if queue[0].Some? then 1 else 0;
        queue := queue[1..];
      }
      SentinelQueued(consumed, queue, arrived, dropped);
      queue := queue + [None];
    }

    /** Every registered request that is not done yet fails; answers given before stay as they are. */
    method FailPending(reason: string)
      requires Valid()
      modifies this`pending, this`answers
      ensures Valid() && pending == {}
      ensures answers == old(answers) + map id | id in old(pending) && id !in old(answers) :: Lost(reason)
      ensures forall id :: id in waiting ==> id in answers
    {
      var rest := pending;
      while rest != {}
        invariant rest <= pending == old(pending)
        invariant answers == old(answers) + map id | id in old(pending) - rest && id !in old(answers) :: Lost(reason)
        decreases rest
      {
        var id :| id in rest;
        if id !in answers {
          answers := answers[id := Lost(reason)];
        }
        rest := rest - {id};
      }
      pending := {};
    }

    /** The reader's finally block, which has no await in it: down, awake, and nobody left waiting. */
    method ReaderExit()
      requires Valid() && !link.Closed?
      modifies this
      ensures Valid() && link == Down && pending == {}
      ensures forall id :: id in old(waiting) ==> id in answers
      ensures forall id :: id in old(answers) ==> id in answers && answers[id] == old(answers)[id]
      ensures nextId == old(nextId) && waiting == old(waiting)
      ensures queue == (if 0 < capacity <= |old(queue)| then old(queue)[1..] else old(queue)) + [None]
      ensures consumed == old(consumed) && arrived == old(arrived)
      ensures dropped == old(dropped) + if old(Evicts(queue)) then 1 else 0
    {
      hide Accounted;
      WakeNotifications();
      FailPending("AppServerClient connection lost");
      link := Down;
    }

    /**
      Final teardown. Cancelling a live reader runs its finally block first, so up to two notes make room for
      sentinels; every waiting request is settled, answers already given stand, and no request can begin again.
    */
    method Close()
      requires Valid()
      modifies this
      ensures Valid() && link == Closed
      ensures !old(link).Closed? ==> pending == {} && forall id :: id in old(waiting) ==> id in answers
      ensures !old(link).Closed? ==> |queue| > 0 && queue[|queue| - 1] == None
      ensures forall id :: id in old(answers) ==> id in answers && answers[id] == old(answers)[id]
      ensures consumed == old(consumed) && arrived == old(arrived)
      ensures old(link).Closed? ==> dropped == old(dropped) && queue == old(queue)
      ensures old(link).Down? ==> dropped == old(dropped) + if old(Evicts(queue)) then 1 else 0
      ensures old(link).Up? ==> old(dropped) <= dropped <= old(dropped) + 2
      ensures old(link).Up? ==>
                (dropped == old(dropped) + 2 <==> 2 <= capacity == |old(queue)| && old(queue)[0].Some? && old(queue)[1].Some?)
    {
      hide Accounted;
      if link.Closed? {
        return;
      }
      if link.Up? {
        ReaderExit();
      }
      WakeNotifications();
      FailPending("AppServerClient closed");
      link := Closed;
    }
  }
}
