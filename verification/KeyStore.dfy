/**
  The Redis keys with an owner: `turn:active:{chat}` (locks.py) and `turn:lease:{turn}` and
  `leader:{name}` (lease.py).  All are taken with SET NX and a time to live, kept alive and released only
  by whoever's value is stored, and expire at their deadline if nobody keeps them alive.
*/
module KeyStore {

  datatype Option<+T> = None | Some(value: T)

  /** A key's value, and the time at which its time to live runs out. */
  datatype Key<+V> = Key(owner: V, deadline: int)

  type Store<K, +V> = map<K, Key<V>>

  datatype Op<+K, +V> =
    | SetNx(key: K, value: V, deadline: int)    // SET key value EX ttl NX
    | Refresh(key: K, value: V, deadline: int)  // SET .. EX ttl IFEQ / EXPIRE if GET == value
    | DelIf(key: K, value: V)                   // DELEX .. IFEQ / DEL if GET == value
    | Expire(key: K, now: int)                  // Redis drops the key if its time to live has run out

  function Get<K, V>(m: Store<K, V>, k: K): Option<V> {
    if k in m then Some(m[k].owner) else None
  }

  /** The key space after one command. A key whose deadline has passed may be dropped at any time after it. */
  function Apply<K, V(==)>(m: Store<K, V>, op: Op<K, V>): Store<K, V> {
    match op
    case SetNx(k, v, deadline) => if k in m then m else m[k := Key(v, deadline)]
    case Refresh(k, v, deadline) => if Get(m, k) == Some(v) then m[k := Key(v, deadline)] else m
    case DelIf(k, v) => if Get(m, k) == Some(v) then m - {k} else m
    case Expire(k, now) => if k in m && m[k].deadline <= now then m - {k} else m
  }

  function Exec<K, V(==)>(m: Store<K, V>, ops: seq<Op<K, V>>): Store<K, V>
    decreases |ops|
  {
    if ops == [] then m else Exec(Apply(m, ops[0]), ops[1..])
  }

  // ---------- custody ----------

  /** The owner's own heartbeat or release. */
  predicate Renews<K(==), V(==)>(op: Op<K, V>, k: K, v: V) {
    op.Refresh? && op.key == k && op.value == v
  }

  /** The command takes key `k`, alive until `deadline`, away from owner `v`. */
  predicate Frees<K(==), V(==)>(op: Op<K, V>, k: K, v: V, deadline: int) {
    op == DelIf(k, v) || (op.Expire? && op.key == k && deadline <= op.now)
  }

  /** The deadline of owner `v`'s key behind the commands: only the owner's own refreshes count. */
  function Renewed<K(==), V(==)>(deadline: int, ops: seq<Op<K, V>>, k: K, v: V): int
    decreases |ops|
  {
    if ops == [] then deadline
    else Renewed(if Renews(ops[0], k, v) then ops[0].deadline else deadline, ops[1..], k, v)
  }

  /** No release by the owner, and no expiry behind the deadline as the owner's refreshes have moved it. */
  predicate Undisturbed<K(==), V(==)>(deadline: int, ops: seq<Op<K, V>>, k: K, v: V)
    decreases |ops|
  {
    ops == [] || (
      && !Frees(ops[0], k, v, deadline)
      && Undisturbed(if Renews(ops[0], k, v) then ops[0].deadline else deadline, ops[1..], k, v))
  }

  /**
    Custody: whatever other commands run, for this key or others, with this owner's value or others, the key
    keeps its owner until the owner's own release or its expiry, and its deadline is moved by nothing but the
    owner's own refreshes.
  */
  lemma {:induction false} Custody<K, V>(m: Store<K, V>, ops: seq<Op<K, V>>, k: K, v: V)
    requires Get(m, k) == Some(v) && Undisturbed(m[k].deadline, ops, k, v)
    ensures k in Exec(m, ops) && Exec(m, ops)[k] == Key(v, Renewed(m[k].deadline, ops, k, v))
    decreases |ops|
  {
    if ops != [] {
      Custody(Apply(m, ops[0]), ops[1..], k, v);
    }
  }

  /** Commands that neither renew nor free the key leave owner and deadline exactly as they are. */
  lemma {:induction false} OthersDoNothing<K, V>(deadline: int, ops: seq<Op<K, V>>, k: K, v: V)
    requires forall op :: op in ops ==> !Renews(op, k, v) && !Frees(op, k, v, deadline)
    ensures Undisturbed(deadline, ops, k, v) && Renewed(deadline, ops, k, v) == deadline
    decreases |ops|
  {
    if ops != [] {
      assert ops[0] in ops;
      assert forall op :: op in ops[1..] ==> op in ops;
      OthersDoNothing(deadline, ops[1..], k, v);
    }
  }

  /** The other way round: if a key changed hands, its owner released it, or it was not renewed in time. */
  lemma LossNeedsRelease<K, V>(m: Store<K, V>, ops: seq<Op<K, V>>, k: K, v: V)
    requires Get(m, k) == Some(v) && Get(Exec(m, ops), k) != Some(v)
    ensures !Undisturbed(m[k].deadline, ops, k, v)
  {
    if Undisturbed(m[k].deadline, ops, k, v) {
      Custody(m, ops, k, v);
    }
  }

  /** A key that was free, or somebody else's, and is now held was taken by its holder's own SET NX. */
  lemma {:induction false} GainNeedsSetNx<K, V>(m: Store<K, V>, ops: seq<Op<K, V>>, k: K, v: V)
    requires Get(m, k) != Some(v) && Get(Exec(m, ops), k) == Some(v)
    ensures exists op :: op in ops && op.SetNx? && op.key == k && op.value == v
    decreases |ops|
  {
    if !(ops[0].SetNx? && ops[0].key == k && ops[0].value == v) {
      GainNeedsSetNx(Apply(m, ops[0]), ops[1..], k, v);
      var op :| op in ops[1..] && op.SetNx? && op.key == k && op.value == v;
      assert op in ops;
    } else {
      assert ops[0] in ops;
    }
  }
}
