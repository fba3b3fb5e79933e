/** Who holds a chat's lock and a turn's lease, and until when, over every schedule of the turn protocol. */
module LockTheorems {
  import opened KeyStore
  import opened TurnStore
  import opened TurnProtocol
  import opened TurnInvariants
  import opened TurnTheorems
  import L = TurnLedger
  import Locks = TurnLocks

  function Commands(op: Option<Op<nat, nat>>): seq<Op<nat, nat>> {
    if op.Some? then [op.value] else []
  }

  /** The commands a schedule runs on the chats' locks. */
  function LockCommands(s: State, acts: seq<Action>): seq<Op<nat, nat>>
    decreases |acts|
  {
    if acts == [] then [] else Commands(EffectOf(s, acts[0]).lock) + LockCommands(Next(s, acts[0]), acts[1..])
  }

  /** The commands a schedule runs on the turns' leases. */
  function LeaseCommands(s: State, acts: seq<Action>): seq<Op<nat, nat>>
    decreases |acts|
  {
    if acts == [] then [] else Commands(EffectOf(s, acts[0]).lease) + LeaseCommands(Next(s, acts[0]), acts[1..])
  }

  lemma {:induction false} KeysConcat(m: Store<nat, nat>, op: Option<Op<nat, nat>>, ops: seq<Op<nat, nat>>)
    ensures KeyStore.Exec(m, Commands(op) + ops) == KeyStore.Exec(Keys(m, op), ops)
  {
    if op.Some? {
      assert (Commands(op) + ops)[0] == op.value && (Commands(op) + ops)[1..] == ops;
    } else {
      assert Commands(op) + ops == ops;
    }
  }

  lemma {:induction false} KeysFollowCommands(s: State, acts: seq<Action>)
    ensures Play(s, acts).active == KeyStore.Exec(s.active, LockCommands(s, acts))
    ensures Play(s, acts).leases == KeyStore.Exec(s.leases, LeaseCommands(s, acts))
    decreases |acts|
  {
    if acts != [] {
      hide EffectOf, KeyStore.Exec;
      var s', e := Next(s, acts[0]), EffectOf(s, acts[0]);
      assert s'.active == Keys(s.active, e.lock) && s'.leases == Keys(s.leases, e.lease);
      hide Next;
      KeysFollowCommands(s', acts[1..]);
      KeysConcat(s.active, e.lock, LockCommands(s', acts[1..]));
      KeysConcat(s.leases, e.lease, LeaseCommands(s', acts[1..]));
    }
    EmptyExec(s);
  }

  lemma EmptyExec(s: State)
    ensures KeyStore.Exec(s.active, []) == s.active && KeyStore.Exec(s.leases, []) == s.leases
  {
  }

  /**
    Custody of `turn:active:{chat}`: it names turn T until T's own release, or its expiry behind the deadline
    that T's own heartbeats have set. Nothing else moves that deadline.
  */
  lemma LockCustody(s: State, acts: seq<Action>, chat: nat, t: nat)
    requires Get(s.active, chat) == Some(t)
    requires Undisturbed(s.active[chat].deadline, LockCommands(s, acts), chat, t)
    ensures var s' := Play(s, acts);
      chat in s'.active && s'.active[chat] == Key(t, Renewed(s.active[chat].deadline, LockCommands(s, acts), chat, t))
  {
    KeysFollowCommands(s, acts);
    Custody(s.active, LockCommands(s, acts), chat, t);
  }

  /** Custody of `turn:lease:{turn}`, likewise: only its own process frees it or moves its deadline. */
  lemma LeaseCustody(s: State, acts: seq<Action>, t: nat, holder: nat)
    requires Get(s.leases, t) == Some(holder)
    requires Undisturbed(s.leases[t].deadline, LeaseCommands(s, acts), t, holder)
    ensures var s' := Play(s, acts);
      t in s'.leases && s'.leases[t] == Key(holder, Renewed(s.leases[t].deadline, LeaseCommands(s, acts), t, holder))
  {
    KeysFollowCommands(s, acts);
    Custody(s.leases, LeaseCommands(s, acts), t, holder);
  }

  // ---------- time ----------

  /** The clock never runs back, and no key is dropped ahead of it. */
  lemma {:induction false} ExpiriesAreTimely(s: State, acts: seq<Action>)
    ensures s.clock <= Play(s, acts).clock
    ensures forall op :: op in LockCommands(s, acts) && op.Expire? ==> op.now <= Play(s, acts).clock
    ensures forall op :: op in LeaseCommands(s, acts) && op.Expire? ==> op.now <= Play(s, acts).clock
    decreases |acts|
  {
    if acts != [] {
      var s' := Next(s, acts[0]);
      ExpiryIsTimely(s, acts[0]);
      assert s.clock <= s'.clock;
      hide Next, EffectOf;
      ExpiriesAreTimely(s', acts[1..]);
    }
  }

  lemma ExpiryIsTimely(s: State, a: Action)
    ensures var op := EffectOf(s, a).lock; op.Some? && op.value.Expire? ==> op.value.now == s.clock
    ensures var op := EffectOf(s, a).lease; op.Some? && op.value.Expire? ==> op.value.now == s.clock
  {
  }

  /**
    A schedule in which turn T itself neither beats nor releases leaves T's lock exactly as it is, owner and
    deadline, up to that deadline: late heartbeats, exits and recoveries of other turns do not reach it.
  */
  lemma OthersLeaveLockAlone(s: State, acts: seq<Action>, chat: nat, t: nat)
    requires Get(s.active, chat) == Some(t) && Play(s, acts).clock < s.active[chat].deadline
    requires DelIf(chat, t) !in LockCommands(s, acts)
    requires forall op :: op in LockCommands(s, acts) ==> !Renews(op, chat, t)
    ensures chat in Play(s, acts).active && Play(s, acts).active[chat] == s.active[chat]
  {
    hide Play, LockCommands;
    ExpiriesAreTimely(s, acts);
    OthersDoNothing(s.active[chat].deadline, LockCommands(s, acts), chat, t);
    LockCustody(s, acts, chat, t);
  }

  lemma OthersLeaveLeaseAlone(s: State, acts: seq<Action>, t: nat, holder: nat)
    requires Get(s.leases, t) == Some(holder) && Play(s, acts).clock < s.leases[t].deadline
    requires DelIf(t, holder) !in LeaseCommands(s, acts)
    requires forall op :: op in LeaseCommands(s, acts) ==> !Renews(op, t, holder)
    ensures t in Play(s, acts).leases && Play(s, acts).leases[t] == s.leases[t]
  {
    hide Play, LeaseCommands;
    ExpiriesAreTimely(s, acts);
    OthersDoNothing(s.leases[t].deadline, LeaseCommands(s, acts), t, holder);
    LeaseCustody(s, acts, t, holder);
  }

  // ---------- who may issue commands ----------

  /** The process of an action, if it works on turn `t`. */
  ghost predicate WorksOn(s: State, a: Action, t: nat) {
    || (a.Run? && a.runner in s.runners && s.runners[a.runner].turn == t)
    || (a.Sweep? && a.sweeper in s.sweepers && s.sweepers[a.sweeper].turn == t)
  }

  /**
    A command keyed by turn T, taking, keeping or freeing a lock, comes only from a runner or finalizer of T
    itself and is for T's own chat; heartbeats come only from T's runners and give one time to live from now.
  */
  lemma LockCommandsAreOwn(web: set<nat>, acts: seq<Action>, a: Action)
    requires var op := EffectOf(Play(Init(web), acts), a).lock; op.Some? && !op.value.Expire?
    ensures var s := Play(Init(web), acts);
      var op := EffectOf(s, a).lock.value;
      && WorksOn(s, a, op.value) && op.value in s.db.rows && s.db.rows[op.value].chat == op.key
      && (op.Refresh? || op.SetNx? ==> a.Run? && op.deadline == s.clock + Locks.LOCK_TTL)
      && (op.DelIf? && a.Run? ==> s.runners[a.runner].pc.Unlocking? && !s.runners[a.runner].held.Nothing?)
  {
    var s := Play(Init(web), acts);
    ReachableInv(web, acts);
    hide Play, L.Sound, CompletedHasDone, ReaderInv;
    if a.Run? && a.runner in s.runners {
      assert RunnerInv(s, a.runner, s.runners[a.runner]);
      RunnerLockCommand(s, s.runners[a.runner], a.choice);
    } else if a.Sweep? && a.sweeper in s.sweepers {
      assert SweeperInv(s, s.sweepers[a.sweeper]);
    }
  }

  lemma RunnerLockCommand(s: State, k: Runner, c: Choice)
    requires RunnerStep(s, k, c).0.lock.Some?
    ensures var op := RunnerStep(s, k, c).0.lock.value;
      && !op.Expire? && op.key == k.chat && op.value == k.turn
      && (op.Refresh? || op.SetNx? ==> op.deadline == s.clock + Locks.LOCK_TTL)
      && (op.DelIf? ==> k.pc.Unlocking? && !k.held.Nothing?)
  {
  }

  /** Likewise a command on turn T's lease comes only from a worker of T, with that worker's own process as value. */
  lemma LeaseCommandsAreOwn(s: State, a: Action)
    requires var op := EffectOf(s, a).lease; op.Some? && !op.value.Expire?
    ensures var op := EffectOf(s, a).lease.value;
      && a.Run? && WorksOn(s, a, op.key) && s.runners[a.runner].holder == op.value
      && (op.Refresh? || op.SetNx? ==> op.deadline == s.clock + Locks.LEASE_TTL)
      && (op.DelIf? ==> s.runners[a.runner].held.LockAndLease?)
  {
  }
}
