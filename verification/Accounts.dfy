/**
 Account access (accounts/service.go): grants, revocations, operator actions and the
 settling of an account's state, each a read, a change and a write under the account's
 lock, interleaved in any way. Times are in seconds.
 */
module Accounts {
  import opened Bytes

  const DAY: int := 86_400

  datatype State = Pending | Active | Expired | Disabled

  /** `until` is None for access that does not end. */
  datatype Account = Account(until: Option<int>, state: State)

  /** What runs under the lock. `Settle` is the locked part of Evaluate; `open` says whether a step is still open. */
  datatype Op =
    | Grant(days: nat)
    | Revoke(days: nat)
    | Adjust(shift: int)
    | SetDisabled(disabled: bool)
    | Settle(open: bool)

  function Later(a: int, b: int): int { if a > b then a else b }

  predicate Lapsed(a: Account, now: int) { a.until.Some? && now >= a.until.value }

  /** The account one locked section writes; unchanged when it writes nothing. */
  function Section(a: Account, op: Op, now: int): Account {
    match op
    case Grant(days) =>
      a.(until := if days == 0 then None
                  else Some((if a.until.Some? then Later(now, a.until.value) else now) + days * DAY))
    case Revoke(days) =>
      a.(until := if days == 0 || a.until.None? then Some(now) else Some(a.until.value - days * DAY))
    case Adjust(days) =>
      if days == 0 || a.until.None? then a
      else a.(until := Some((if days > 0 then Later(now, a.until.value) else a.until.value) + days * DAY))
    case SetDisabled(disabled) =>
      if disabled == a.state.Disabled? then a else a.(state := if disabled then Disabled else Pending)
    case Settle(open) =>
      if a.state.Disabled? then a
      else a.(state := if Lapsed(a, now) then Expired else if open then Pending else Active)
  }

  // ---------------------------------------------------------------- steps

  /** A step of an account; one without a record is open. */
  datatype Status = Open | Done | Skipped

  datatype StepDef = StepDef(name: string, renewable: bool)

  /** The steps of all accounts, and what a step's own check reports, if it does not fail. */
  type Records = map<(nat, string), Status>

  type Check = (string, Account, Status) -> Option<Status>

  function StatusOf(records: Records, id: nat, name: string): Status {
    if (id, name) in records then records[(id, name)] else Open
  }

  /** One step of the walk: a lapsed period reopens a renewable step, and an open one may turn out closed. */
  function StepWalked(check: Check, acct: Account, step: StepDef, was: Status, now: int): Status {
    var reopened := if Lapsed(acct, now) && step.renewable && was.Done? then Open else was;
    if !reopened.Open? then reopened
    else match check(step.name, acct, reopened)
      case Some(status) => status
      case None => Open
  }

  function Walked(check: Check, acct: Account, id: nat, steps: seq<StepDef>, records: Records, now: int): Records {
    if steps == [] then records
    else
      var n := |steps| - 1;
      var m := Walked(check, acct, id, steps[..n], records, now);
      var was := StatusOf(m, id, steps[n].name);
      var next := StepWalked(check, acct, steps[n], was, now);
      if next == was then m else m[(id, steps[n].name) := next]
  }

  /** The open steps, in configured order. */
  function OpenSteps(steps: seq<StepDef>, records: Records, id: nat): seq<string> {
    if steps == [] then []
    else
      var n := |steps| - 1;
      OpenSteps(steps[..n], records, id) + if StatusOf(records, id, steps[n].name).Open? then [steps[n].name] else []
  }

  ghost predicate AllClosed(steps: seq<StepDef>, records: Records, id: nat) {
    forall i :: 0 <= i < |steps| ==> !StatusOf(records, id, steps[i].name).Open?
  }

  lemma {:induction false} NoneOpen(steps: seq<StepDef>, records: Records, id: nat)
    ensures OpenSteps(steps, records, id) == [] <==> AllClosed(steps, records, id)
    decreases steps
  {
    if steps != [] {
      var n := |steps| - 1;
      NoneOpen(steps[..n], records, id);
      assert AllClosed(steps, records, id) ==> AllClosed(steps[..n], records, id);
    }
  }

  /** Each open step is listed once for each time it is configured, in that order, and no other. */
  lemma {:induction false} OpenListed(steps: seq<StepDef>, records: Records, id: nat) returns (at: seq<nat>)
    ensures |at| == |OpenSteps(steps, records, id)|
    ensures forall i :: 0 <= i < |at| ==> at[i] < |steps| && OpenSteps(steps, records, id)[i] == steps[at[i]].name
    ensures forall i, j :: 0 <= i < j < |at| ==> at[i] < at[j]
    ensures forall k :: 0 <= k < |steps| ==> (k in at <==> StatusOf(records, id, steps[k].name).Open?)
    decreases steps
  {
    if steps == [] {
      at := [];
      return;
    }
    var n := |steps| - 1;
    at := OpenListed(steps[..n], records, id);
    assert forall k :: 0 <= k < n ==> steps[..n][k] == steps[k];
    if StatusOf(records, id, steps[n].name).Open? {
      at := at + [n];
    }
  }

  /** Within its period an account with every step closed is not touched by the walk. */
  lemma {:induction false} NothingToWalk(
    check: Check, acct: Account, id: nat, steps: seq<StepDef>, records: Records, now: int)
    requires AllClosed(steps, records, id) && !Lapsed(acct, now)
    ensures Walked(check, acct, id, steps, records, now) == records
    decreases steps
  {
    if steps != [] {
      var n := |steps| - 1;
      assert AllClosed(steps[..n], records, id);
      NothingToWalk(check, acct, id, steps[..n], records, now);
    }
  }

  /** The walk is about one account. */
  lemma {:induction false} WalksOne(
    check: Check, acct: Account, id: nat, steps: seq<StepDef>, records: Records, now: int, other: nat, name: string)
    requires other != id
    ensures StatusOf(Walked(check, acct, id, steps, records, now), other, name) == StatusOf(records, other, name)
    decreases steps
  {
    hide StepWalked;
    if steps != [] { WalksOne(check, acct, id, steps[..|steps| - 1], records, now, other, name); }
  }

  /** What the walk makes of a step: a closed one stays, except a done renewable one of a lapsed account, and an open one is what its check says. */
  lemma {:induction false} WalkedAt(
    check: Check, acct: Account, id: nat, steps: seq<StepDef>, records: Records, now: int, i: nat)
    requires i < |steps| && forall j, k :: 0 <= j < k < |steps| ==> steps[j].name != steps[k].name
    ensures var was := StatusOf(records, id, steps[i].name);
            StatusOf(Walked(check, acct, id, steps, records, now), id, steps[i].name) ==
            if was.Skipped? then Skipped
            else if was.Done? && !(acct.until.Some? && now >= acct.until.value && steps[i].renewable) then Done
            else
              var said := check(steps[i].name, acct, Open);
              if said.Some? then said.value else Open
    decreases steps
  {
    var n := |steps| - 1;
    if i < n {
      WalkedAt(check, acct, id, steps[..n], records, now, i);
      assert steps[n].name != steps[i].name;
    } else {
      WalkPassesBy(check, acct, id, steps[..n], records, now, steps[n].name);
    }
  }

  lemma {:induction false} WalkPassesBy(
    check: Check, acct: Account, id: nat, steps: seq<StepDef>, records: Records, now: int, name: string)
    requires forall j :: 0 <= j < |steps| ==> steps[j].name != name
    ensures StatusOf(Walked(check, acct, id, steps, records, now), id, name) == StatusOf(records, id, name)
    decreases steps
  {
    hide StepWalked;
    if steps != [] { WalkPassesBy(check, acct, id, steps[..|steps| - 1], records, now, name); }
  }

  /** What evaluating an account comes to. */
  function Verdict(check: Check, acct: Account, id: nat, steps: seq<StepDef>, records: Records, now: int): State {
    if acct.state.Disabled? then Disabled
    else if Lapsed(acct, now) then Expired
    else if OpenSteps(steps, Walked(check, acct, id, steps, records, now), id) != [] then Pending
    else Active
  }

  // ---------------------------------------------------------------- the service

  /** The accounts after a section on one of them. */
  function After(accounts: map<nat, Account>, id: nat, op: Op, now: int): map<nat, Account> {
    if id in accounts then accounts[id := Section(accounts[id], op, now)] else accounts
  }

  class Service {
    const steps: seq<StepDef>
    const check: Check
    var accounts: map<nat, Account>
    var records: Records

    /** An account stored as active has every configured step closed. */
    ghost predicate Valid()
      reads this
    {
      forall id :: id in accounts && accounts[id].state.Active? ==> AllClosed(steps, records, id)
    }

    constructor (steps: seq<StepDef>, check: Check)
      ensures Valid() && accounts == map[] && records == map[]
      ensures this.steps == steps && this.check == check
    {
      this.steps, this.check := steps, check;
      accounts, records := map[], map[];
    }

    /** Closes a step unless it is closed. */
    method CloseStep(id: nat, name: string, status: Status)
      modifies this`records
      ensures records == if StatusOf(old(records), id, name).Open? then old(records)[(id, name) := status] else old(records)
    {
      if StatusOf(records, id, name).Open? {
        records := records[(id, name) := status];
      }
    }

    method ResetStep(id: nat, name: string)
      modifies this`records
      ensures records == old(records)[(id, name) := Open]
    {
      records := records[(id, name) := Open];
    }

    /** The first half of Evaluate: each step in turn. */
    method WalkSteps(id: nat, acct: Account, now: int)
      modifies this`records
      ensures records == Walked(check, acct, id, steps, old(records), now)
    {
      for i := 0 to |steps|
        invariant records == Walked(check, acct, id, steps[..i], old(records), now)
      {
        assert steps[..i + 1][..i] == steps[..i];
        WalkStep(id, acct, steps[i], now);
      }
      assert steps[..|steps|] == steps;
    }

    method WalkStep(id: nat, acct: Account, step: StepDef, now: int)
      modifies this`records
      ensures var was := StatusOf(old(records), id, step.name);
              var next := StepWalked(check, acct, step, was, now);
              records == if next == was then old(records) else old(records)[(id, step.name) := next]
    {
      if Lapsed(acct, now) && step.renewable && StatusOf(records, id, step.name).Done? {
        ResetStep(id, step.name);
      }
      var status := StatusOf(records, id, step.name);
      if !status.Open? {
        return;
      }
      var result := check(step.name, acct, status);
      if result.Some? && !result.value.Open? {
        CloseStep(id, step.name, result.value);
      }
    }

    /**
     Walks the steps, reads account and steps back, and stores the state they come to.
     The account is active exactly when its period runs and no configured step is open.
     */
    method Evaluate(id: nat, now: int) returns (state: Option<State>, pending: seq<string>)
      requires forall other :: other in accounts && other != id && accounts[other].state.Active? ==>
                 AllClosed(steps, records, other)
      modifies this
      ensures Valid()
      ensures id !in old(accounts) ==> state == None && accounts == old(accounts) && records == old(records)
      ensures id in old(accounts) ==>
                && state == Some(Verdict(check, old(accounts)[id], id, steps, old(records), now))
                && accounts == old(accounts)[id := old(accounts)[id].(state := state.value)]
                && (state.value.Disabled? <==> old(accounts)[id].state.Disabled?)
                && (state.value.Expired? <==> !state.value.Disabled? && accounts[id].until.Some? && now >= accounts[id].until.value)
                && (state.value.Active? <==> !state.value.Disabled? && !state.value.Expired? && AllClosed(steps, records, id))
                && accounts == After(old(accounts), id, Settle(pending != []), now)
                && (!state.value.Disabled? ==> pending == OpenSteps(steps, records, id))
    {
      pending := [];
      if id !in accounts {
        return None, [];
      }
      var acct := accounts[id];
      if acct.state.Disabled? {
        assert accounts[id := acct] == accounts;
        return Some(Disabled), [];
      }
      WalkSteps(id, acct, now);
      forall other, name | other != id ensures StatusOf(records, other, name) == StatusOf(old(records), other, name) {
        WalksOne(check, acct, id, steps, old(records), now, other, name);
      }
      for i := 0 to |steps|
        invariant pending == OpenSteps(steps[..i], records, id)
      {
        assert steps[..i + 1][..i] == steps[..i];
        if StatusOf(records, id, steps[i].name).Open? {
          pending := pending + [steps[i].name];
        }
      }
      assert steps[..|steps|] == steps;
      NoneOpen(steps, records, id);
      var settled :=
        if acct.until.Some? && now >= acct.until.value then Expired
        else if |pending| > 0 then Pending
        else Active;
      if acct.state != settled {
        acct := acct.(state := settled);
      }
      accounts := accounts[id := acct];
      return Some(settled), pending;
    }

    /** The way in for every request: an account stored as active within its period is not evaluated. */
    method Authorize(id: nat, now: int) returns (state: Option<State>)
      requires Valid()
      modifies this
      ensures Valid()
      ensures state == if id in old(accounts) then Some(Verdict(check, old(accounts)[id], id, steps, old(records), now)) else None
    {
      if id in accounts && accounts[id].state.Active? && !Lapsed(accounts[id], now) {
        NothingToWalk(check, accounts[id], id, steps, records, now);
        NoneOpen(steps, records, id);
        return Some(Active);
      }
      var pending;
      state, pending := Evaluate(id, now);
    }

    /** A new account is evaluated at once: without open steps it is active. */
    method Register(id: nat, now: int) returns (state: Option<State>)
      requires Valid() && id !in accounts
      modifies this
      ensures Valid() && accounts.Keys == old(accounts).Keys + {id}
      ensures state == Some(Verdict(check, Account(None, Pending), id, steps, old(records), now))
      ensures accounts[id] == Account(None, state.value)
    {
      accounts := accounts[id := Account(None, Pending)];
      var pending;
      state, pending := Evaluate(id, now);
    }

    method GrantAccess(id: nat, step: string, days: nat, now: int) returns (ok: bool)
      requires Valid()
      modifies this
      ensures Valid() && ok == (id in old(accounts)) && accounts == After(old(accounts), id, Grant(days), now)
      ensures forall i, name :: StatusOf(records, i, name) ==
                if ok && i == id && name == step && StatusOf(old(records), i, name).Open? then Done
                else StatusOf(old(records), i, name)
    {
      if id !in accounts {
        return false;
      }
      var acct := accounts[id];
      if days == 0 {
        acct := acct.(until := None);
      } else {
        var from := now;
        if acct.until.Some? && acct.until.value > from {
          from := acct.until.value;
        }
        acct := acct.(until := Some(from + days * DAY));
      }
      accounts := accounts[id := acct];
      CloseStep(id, step, Done);
      return true;
    }

    /** Takes access back; what has then run out reopens the step that paid, and the account is settled again. */
    method RevokeAccess(id: nat, step: string, days: nat, now: int) returns (ok: bool)
      requires Valid()
      modifies this
      ensures Valid() && ok == (id in old(accounts))
      ensures !ok ==> accounts == old(accounts) && records == old(records)
      ensures ok ==>
                var cut := Section(old(accounts)[id], Revoke(days), now);
                var recs := if Lapsed(cut, now) then old(records)[(id, step) := Open] else old(records);
                accounts == old(accounts)[id := cut.(state := Verdict(check, cut, id, steps, recs, now))]
    {
      if id !in accounts {
        return false;
      }
      var acct := accounts[id];
      if days == 0 || acct.until.None? {
        acct := acct.(until := Some(now));
      } else {
        acct := acct.(until := Some(acct.until.value - days * DAY));
      }
      accounts := accounts[id := acct];
      if now >= acct.until.value {
        ResetStep(id, step);
      }
      var state, pending := Evaluate(id, now);
      return true;
    }

    method AdjustAccess(id: nat, days: int, now: int) returns (ok: bool)
      requires Valid()
      modifies this
      ensures Valid()
      ensures ok == (days == 0 || (id in old(accounts) && old(accounts)[id].until.Some?))
      ensures days == 0 || !ok ==> accounts == old(accounts) && records == old(records)
      ensures days != 0 && ok ==>
                var moved := Section(old(accounts)[id], Adjust(days), now);
                accounts == old(accounts)[id := moved.(state := Verdict(check, moved, id, steps, old(records), now))]
    {
      if days == 0 {
        return true;
      }
      if id !in accounts {
        return false;
      }
      var acct := accounts[id];
      if acct.until.None? {
        return false;
      }
      var from := acct.until.value;
      if days > 0 && now > from {
        from := now;
      }
      accounts := accounts[id := acct.(until := Some(from + days * DAY))];
      var state, pending := Evaluate(id, now);
      return true;
    }

    /** Disables at once; re-enabling settles the account from its steps. */
    method Disable(id: nat, disabled: bool, now: int) returns (ok: bool)
      requires Valid()
      modifies this
      ensures Valid() && ok == (id in old(accounts))
      ensures !ok || disabled == old(accounts)[id].state.Disabled? ==> accounts == old(accounts) && records == old(records)
      ensures ok && disabled ==> accounts == After(old(accounts), id, SetDisabled(true), now) && records == old(records)
      ensures ok && !disabled && old(accounts)[id].state.Disabled? ==>
                var back := Section(old(accounts)[id], SetDisabled(false), now);
                accounts == old(accounts)[id := back.(state := Verdict(check, back, id, steps, old(records), now))]
    {
      if id !in accounts {
        return false;
      }
      var acct := accounts[id];
      if disabled == acct.state.Disabled? {
        assert accounts[id := acct] == accounts;
        return true;
      }
      accounts := accounts[id := acct.(state := if disabled then Disabled else Pending)];
      if !disabled {
        var state, pending := Evaluate(id, now);
      }
      return true;
    }

    /** Closes a configured step without it being done. */
    method SkipStep(id: nat, step: string, now: int) returns (ok: bool)
      requires Valid()
      modifies this
      ensures Valid()
      ensures ok == (id in old(accounts) && exists i :: 0 <= i < |steps| && steps[i].name == step)
      ensures !ok ==> accounts == old(accounts) && records == old(records)
      ensures ok ==>
                var acct := old(accounts)[id];
                var recs := if StatusOf(old(records), id, step).Open? then old(records)[(id, step) := Skipped] else old(records);
                accounts == old(accounts)[id := acct.(state := Verdict(check, acct, id, steps, recs, now))]
    {
      var known := false;
      for i := 0 to |steps|
        invariant known <==> exists j :: 0 <= j < i && steps[j].name == step
      {
        if steps[i].name == step {
          known := true;
        }
      }
      if !known || id !in accounts {
        return false;
      }
      CloseStep(id, step, Skipped);
      var state, pending := Evaluate(id, now);
      return true;
    }
  }

  // ---------------------------------------------------------------- the goroutines on one account

  /** A goroutine: outside, holding the lock, holding it with the account read, holding it with the account written. */
  datatype Thread = Idle | Holding(op: Op) | Read(op: Op, copy: Account) | Wrote

  /** One write: what ran, and at what time it read the clock. */
  datatype Commit = Commit(op: Op, now: int)

  datatype M = M(stored: Account, holder: Option<nat>, threads: map<nat, Thread>, log: seq<Commit>)

  datatype Action =
    | Lock(t: nat, op: Op)
    | Load(t: nat)
    | Store(t: nat, now: int)
    | Unlock(t: nat)

  function At(m: M, t: nat): Thread { if t in m.threads then m.threads[t] else Idle }

  ghost predicate Enabled(m: M, a: Action) {
    match a
    case Lock(t, _) => m.holder.None? && At(m, t).Idle?
    case Load(t) => At(m, t).Holding?
    case Store(t, _) => At(m, t).Read?
    // also the way out when the account is missing or the write fails
    case Unlock(t) => !At(m, t).Idle?
  }

  ghost function Do(m: M, a: Action): M
    requires Enabled(m, a)
  {
    match a
    case Lock(t, op) => m.(holder := Some(t), threads := m.threads[t := Holding(op)])
    case Load(t) => m.(threads := m.threads[t := Read(m.threads[t].op, m.stored)])
    case Store(t, now) =>
      var th := m.threads[t];
      m.(stored := Section(th.copy, th.op, now), threads := m.threads[t := Wrote],
      log := m.log + [Commit(th.op, now)])
    case Unlock(t) => m.(holder := None, threads := m.threads[t := Idle])
  }

  /** The writes one after the other. */
  function Serial(a: Account, log: seq<Commit>): Account {
    if log == [] then a
    else Section(Serial(a, log[..|log| - 1]), log[|log| - 1].op, log[|log| - 1].now)
  }

  /** Only the holder is busy, and what it read is what is stored. */
  ghost predicate Inv(m: M, a: Account) {
    && (forall t :: t in m.threads && !m.threads[t].Idle? ==> m.holder == Some(t))
    && (forall t :: t in m.threads && m.threads[t].Read? ==> m.threads[t].copy == m.stored)
    && m.stored == Serial(a, m.log)
  }

  lemma DoKeeps(m: M, a: Account, act: Action)
    requires Inv(m, a) && Enabled(m, act)
    ensures Inv(Do(m, act), a)
  {
    hide Section, Serial;
    if act.Store? {
      var th := m.threads[act.t];
      SerialNext(a, m.log, Commit(th.op, act.now));
    }
  }

  lemma SerialNext(a: Account, log: seq<Commit>, c: Commit)
    ensures Serial(a, log + [c]) == Section(Serial(a, log), c.op, c.now)
  {
    hide Section;
    assert (log + [c])[..|log|] == log;
  }

  ghost predicate Run(m: M, acts: seq<Action>, m': M)
    decreases acts
  {
    if acts == [] then m == m' else Enabled(m, acts[0]) && Run(Do(m, acts[0]), acts[1..], m')
  }

  lemma {:induction false} RunKeeps(m: M, a: Account, acts: seq<Action>, m': M)
    requires Inv(m, a) && Run(m, acts, m')
    ensures Inv(m', a)
    decreases acts
  {
    hide Inv, Do;
    if acts != [] {
      DoKeeps(m, a, acts[0]);
      RunKeeps(Do(m, acts[0]), a, acts[1..], m');
    }
  }

  /** Under every interleaving the stored account is the one the writes give one after the other: none is lost. */
  lemma WritesAreSerial(a: Account, acts: seq<Action>, m: M)
    requires Run(M(a, None, map[], []), acts, m)
    ensures m.stored == Serial(a, m.log)
  {
    RunKeeps(M(a, None, map[], []), a, acts, m);
  }

  // ---------------------------------------------------------------- what the writes can do

  /** The log without the writes that only settle or disable. */
  function Moves(log: seq<Commit>): seq<Commit> {
    if log == [] then []
    else
      var n := |log| - 1;
      if log[n].op.Settle? || log[n].op.SetDisabled? then Moves(log[..n]) else Moves(log[..n]) + [log[n]]
  }

  /** Evaluate never changes the access end, and neither does disabling: leaving them out gives the same one. */
  lemma {:induction false} SettlingMovesNothing(a: Account, log: seq<Commit>)
    ensures Serial(a, log).until == Serial(a, Moves(log)).until
  {
    if log != [] {
      var n := |log| - 1;
      SettlingMovesNothing(a, log[..n]);
      var moves := Moves(log[..n]);
      assert (moves + [log[n]])[..|moves|] == moves;
      SectionUntil(Serial(a, log[..n]), Serial(a, moves), log[n].op, log[n].now);
    }
  }

  lemma SectionUntil(a: Account, b: Account, op: Op, now: int)
    requires a.until == b.until
    ensures Section(a, op, now).until == Section(b, op, now).until
    ensures op.Settle? || op.SetDisabled? ==> Section(a, op, now).until == a.until
  {
  }

  /** A disabled account stays disabled until it is re-enabled. */
  lemma {:induction false} DisabledUntilReenabled(a: Account, log: seq<Commit>)
    requires a.state.Disabled? && forall i :: 0 <= i < |log| ==> log[i].op != SetDisabled(false)
    ensures Serial(a, log).state.Disabled?
  {
    if log != [] {
      DisabledUntilReenabled(a, log[..|log| - 1]);
    }
  }

  /** Days a write adds to the end, or takes off it. */
  function Days(op: Op): int {
    match op
    case Grant(d) => d
    case Revoke(d) => 0 - d
    case Adjust(d) => d
    case _ => 0
  }

  function TotalDays(log: seq<Commit>): int {
    if log == [] then 0 else TotalDays(log[..|log| - 1]) + Days(log[|log| - 1].op)
  }

  /** A change by days: neither removes the end nor ends access at once. */
  predicate ByDays(op: Op) { !(op.Grant? && op.days == 0) && !(op.Revoke? && op.days == 0) }

  /** An extension made after the end it extends counts from when it was made. */
  ghost predicate Late(a: Account, c: Commit) {
    (c.op.Grant? || c.op.Adjust?) && Days(c.op) > 0 && Lapsed(a, c.now) && c.now > a.until.value
  }

  ghost predicate NeverLate(a: Account, log: seq<Commit>) {
    forall i :: 0 <= i < |log| ==> !Late(Serial(a, log[..i]), log[i])
  }

  lemma NeverLateSnoc(a: Account, log: seq<Commit>)
    requires log != []
    ensures var n := |log| - 1;
            NeverLate(a, log) <==> NeverLate(a, log[..n]) && !Late(Serial(a, log[..n]), log[n])
  {
    hide Late, Serial;
    var n := |log| - 1;
    assert forall i :: 0 <= i < n ==> log[..n][..i] == log[..i];
  }

  /**
   No write by days is lost: the end is never earlier than all of them added up, whatever
   their order and whatever settling and disabling falls between them, and it is exactly
   that if and only if none of them extended access that had run out by then.
   */
  lemma {:induction false} GrantsAddUp(a: Account, log: seq<Commit>)
    requires a.until.Some? && forall i :: 0 <= i < |log| ==> ByDays(log[i].op)
    ensures var b := Serial(a, log);
            var sum := a.until.value + TotalDays(log) * DAY;
            b.until.Some? && b.until.value >= sum && (b.until.value == sum <==> NeverLate(a, log))
  {
    if log != [] {
      var n := |log| - 1;
      GrantsAddUp(a, log[..n]);
      NeverLateSnoc(a, log);
      MovedByDays(Serial(a, log[..n]), log[n]);
    }
  }

  lemma MovedByDays(a: Account, c: Commit)
    requires a.until.Some? && ByDays(c.op)
    ensures var b := Section(a, c.op, c.now);
            var sum := a.until.value + Days(c.op) * DAY;
            b.until.Some? && b.until.value >= sum && (b.until.value == sum <==> !Late(a, c))
  {
  }

  predicate NoEarlier(a: Option<int>, b: Option<int>) { b.None? || (a.Some? && a.value <= b.value) }

  /** Days granted run at least from now; granted to an account with no end, or one that ran out, exactly from now. */
  lemma GrantRuns(a: Account, days: nat, now: int)
    requires days > 0
    ensures var b := Section(a, Grant(days), now);
            && b.until.Some? && b.until.value >= now + days * 86_400
            && (a.until.None? || a.until.value <= now <==> b.until.value == now + days * 86_400)
  {
  }

  /** Access granted for good never runs out, and access taken back altogether ends at once. */
  lemma ForGood(a: Account, now: int, t: int)
    ensures !Lapsed(Section(a, Grant(0), now), t)
    ensures Section(a, Revoke(0), now).until == Some(now)
    ensures Lapsed(Section(a, Revoke(0), now), t) <==> now <= t
  {
  }

  /** Revoking what was granted restores the end exactly when it had one that had not passed. */
  lemma GrantThenRevoke(a: Account, days: nat, now: int, later: int)
    requires days > 0
    ensures Section(Section(a, Grant(days), now), Revoke(days), later).until == a.until <==>
            a.until.Some? && now <= a.until.value
  {
  }

  /** A grant never shortens access, except that a grant of days ends access that had no end. */
  lemma GrantShortens(a: Account, days: nat, now: int)
    ensures NoEarlier(a.until, Section(a, Grant(days), now).until) <==> !(a.until.None? && days > 0)
  {
  }
}
