/**
 * The environment registry: a table of 64 slots shared by every environment of
 * an address space.  Slots are handed out append-only behind a high-water mark,
 * slots 0 and 2 are permanent sentinels, and freeing a slot only clears the
 * word that names its environment.
 *
 * The class Registry is the table as the program keeps it.  Its meaning is a
 * log: one registration for every slot ever handed out, in order, each marked
 * live or gone.  Every method is proved against the log, and what holds over all
 * histories is proved about the log.
 */
module Registry {
  import opened Options

  type Word = w: int | 0 <= w < 0x1_0000_0000

  const TotalSlots := 64
  const SlotFree: Word := 0
  const SlotSentinel: Word := 0xFFFFFFFF
  const FlagTso: Word := 0x40000000

  /** The number of allocations the table can ever serve. */
  const Capacity := 62

  datatype Code = OK | FULL | NOT_FOUND | LOAD_FAIL

  datatype Entry = Entry(env: Word, token: Word, tcb: Word, flags: Word)

  predicate Occupied(e: Entry) {
    e.env != SlotFree && e.env != SlotSentinel
  }

  predicate IsTso(e: Entry) {
    e.flags / FlagTso % 2 == 1
  }

  /** The second highest bit of the flags says so. */
  lemma TsoBit(e: Entry, high: nat, low: nat, attached: bool)
    requires e.flags == high * 0x8000_0000 + (if attached then 0x4000_0000 else 0) + low && low < 0x4000_0000
    ensures IsTso(e) <==> attached
  {
  }

  // ---- The log ------------------------------------------------------------------------------

  datatype Registration = Registration(env: Word, tcb: Word, tso: bool, live: bool)

  /** A sentinel word is not refused as an environment, but nothing finds it again. */
  function Registered(log: seq<Registration>, env: Word, tcb: Word, tso: bool): seq<Registration> {
    if env == SlotFree || |log| >= Capacity then log
    else log + [Registration(env, tcb, tso, env != SlotSentinel)]
  }

  /** The oldest live registration of an environment. */
  function Oldest(log: seq<Registration>, env: Word): (r: Option<nat>)
    ensures r.Some? ==> r.value < |log|
  {
    if log == [] then None
    else
      var before := Oldest(log[..|log| - 1], env);
      var last := log[|log| - 1];
      if before.None? && last.live && last.env == env then Some(|log| - 1) else before
  }

  function Released(log: seq<Registration>, env: Word): seq<Registration> {
    match Oldest(log, env)
    case None => log
    case Some(i) => log[i := log[i].(live := false)]
  }

  /** The newest live registration among the first n that a task made. */
  function NewestOf(log: seq<Registration>, tcb: Word): (r: Option<nat>)
    ensures r.Some? ==> r.value < |log|
  {
    if log == [] then None
    else if log[|log| - 1].live && log[|log| - 1].tcb == tcb then Some(|log| - 1)
    else NewestOf(log[..|log| - 1], tcb)
  }

  /** The newest live registration of an environment attached to TSO. */
  function NewestTso(log: seq<Registration>): (r: Option<nat>)
    ensures r.Some? ==> r.value < |log|
  {
    if log == [] then None
    else if log[|log| - 1].live && log[|log| - 1].tso then Some(|log| - 1)
    else NewestTso(log[..|log| - 1])
  }

  lemma {:induction false} OldestIs(log: seq<Registration>, env: Word, i: nat)
    ensures Oldest(log, env) == Some(i) <==>
              i < |log| && log[i].live && log[i].env == env
              && forall j :: 0 <= j < i ==> !(log[j].live && log[j].env == env)
    ensures Oldest(log, env) == None <==>
              forall j :: 0 <= j < |log| ==> !(log[j].live && log[j].env == env)
  {
    if log != [] {
      var init := log[..|log| - 1];
      OldestIs(init, env, i);
      if Oldest(init, env).Some? {
        OldestIs(init, env, Oldest(init, env).value);
        var k := Oldest(init, env).value;
        assert log[k] == init[k];
        assert forall j :: 0 <= j < k ==> log[j] == init[j];
        if i < |log| - 1 {
          assert log[i] == init[i];
        }
      } else {
        assert forall j :: 0 <= j < |log| - 1 ==> log[j] == init[j];
      }
    }
  }

  lemma {:induction false} NewestOfIs(log: seq<Registration>, tcb: Word, i: nat)
    ensures NewestOf(log, tcb) == Some(i) <==>
              i < |log| && log[i].live && log[i].tcb == tcb
              && forall j :: i < j < |log| ==> !(log[j].live && log[j].tcb == tcb)
    ensures NewestOf(log, tcb) == None <==>
              forall j :: 0 <= j < |log| ==> !(log[j].live && log[j].tcb == tcb)
  {
    if log != [] && !(log[|log| - 1].live && log[|log| - 1].tcb == tcb) {
      var init := log[..|log| - 1];
      assert forall j :: 0 <= j < |init| ==> log[j] == init[j];
      NewestOfIs(init, tcb, i);
    }
  }

  lemma {:induction false} NewestTsoIs(log: seq<Registration>, i: nat)
    ensures NewestTso(log) == Some(i) <==>
              i < |log| && log[i].live && log[i].tso
              && forall j :: i < j < |log| ==> !(log[j].live && log[j].tso)
    ensures NewestTso(log) == None <==>
              forall j :: 0 <= j < |log| ==> !(log[j].live && log[j].tso)
  {
    if log != [] && !(log[|log| - 1].live && log[|log| - 1].tso) {
      var init := log[..|log| - 1];
      assert forall j :: 0 <= j < |init| ==> log[j] == init[j];
      NewestTsoIs(init, i);
    }
  }

  // ---- Where the registrations sit in the table ---------------------------------------------

  /** Slot of the registration with this position in the log: 1, 3, 4, ... 63. */
  function SlotOf(n: nat): (s: nat)
    ensures s != 0 && s != 2
  {
    if n == 0 then 1 else n + 2
  }

  /** The high-water mark behind so many registrations. */
  function Mark(n: nat): nat {
    if n == 0 then 0 else SlotOf(n - 1) + 1
  }

  function Position(slot: nat): (n: nat)
    requires slot != 0 && slot != 2
    ensures SlotOf(n) == slot
  {
    if slot == 1 then 0 else slot - 2
  }

  /** The slot holds what is known about the registration. */
  predicate Shows(e: Entry, r: Registration, n: nat) {
    && e.env == (if r.live then r.env else if r.env == SlotSentinel then SlotSentinel else SlotFree)
    && (r.live ==> Occupied(e))
    && e.token == n + 1
    && e.tcb == r.tcb
    && e.flags == (if r.tso then FlagTso else 0)
  }

  ghost predicate Holds(slots: seq<Entry>, log: seq<Registration>) {
    && |slots| == TotalSlots
    && |log| <= Capacity
    && slots[0].env == SlotSentinel && slots[2].env == SlotSentinel
    && (forall n :: 0 <= n < |log| ==> Shows(slots[SlotOf(n)], log[n], n))
    && (forall s :: Mark(|log|) <= s < TotalSlots && s != 0 && s != 2 ==> slots[s].env == SlotFree)
  }

  /** Behind the mark there is nothing but free slots, and slot 2. */
  lemma NextSlot(slots: seq<Entry>, log: seq<Registration>)
    requires Holds(slots, log)
    ensures |slots| == TotalSlots && |log| <= Capacity && slots[2].env == SlotSentinel
    ensures |log| < Capacity ==> slots[SlotOf(|log|)].env == SlotFree
  {
  }

  lemma OneMoreHeld(slots: seq<Entry>, log: seq<Registration>, env: Word, tcb: Word, tso: bool)
    requires Holds(slots, log) && |log| < Capacity && env != SlotFree
    ensures var e := Entry(env, |log| + 1, tcb, if tso then FlagTso else 0);
            Holds(slots[SlotOf(|log|) := e], Registered(log, env, tcb, tso))
  {
    var e := Entry(env, |log| + 1, tcb, if tso then FlagTso else 0);
    var more, later := slots[SlotOf(|log|) := e], Registered(log, env, tcb, tso);
    assert later[|log|] == Registration(env, tcb, tso, env != SlotSentinel);
    forall n | 0 <= n < |later|
      ensures Shows(more[SlotOf(n)], later[n], n)
    {
      if n < |log| {
        assert more[SlotOf(n)] == slots[SlotOf(n)] && later[n] == log[n];
      }
    }
  }

  function SlotIn(found: Option<nat>): Option<nat> {
    match found
    case None => None
    case Some(n) => Some(SlotOf(n))
  }

  class Registry {
    var slots: array<Entry>
    var used: nat
    var counter: Word
    ghost var log: seq<Registration>

    ghost predicate Valid()
      reads this, slots
    {
      && slots.Length == TotalSlots
      && Holds(slots[..], log)
      && used == Mark(|log|)
      && counter == |log|
    }

    constructor ()
      ensures Valid() && fresh(slots) && log == []
    {
      var blank := Entry(SlotFree, 0, 0, 0);
      slots := new Entry[64](_ => blank);
      used, counter, log := 0, 0, [];
      new;
      slots[0] := slots[0].(env := SlotSentinel);
      slots[2] := slots[2].(env := SlotSentinel);
    }

    /** A null environment is refused; otherwise the first slot behind the mark
    that is no sentinel is claimed. */
    method AllocSlot(env: Word, tcb: Word, tso: bool) returns (code: Code, token: Word)
      requires Valid()
      modifies this, slots
      ensures Valid() && slots == old(slots)
      ensures log == Registered(old(log), env, tcb, tso)
      ensures code == if env == SlotFree then LOAD_FAIL
                      else if |old(log)| < Capacity then OK else FULL
      ensures code == OK ==> token == |log|
      ensures old(used) <= used
      ensures forall s :: 0 <= s < TotalSlots && (code != OK || s != SlotOf(|old(log)|)) ==> slots[s] == old(slots[s])
    {
      token := 0;
      if env == SlotFree {
        return LOAD_FAIL, token;
      }
      hide Holds, Shows;
      NextSlot(slots[..], log);
      var i := if used < 1 then 1 else used;
      while i < TotalSlots
        invariant i <= TotalSlots
        invariant Valid() && log == old(log) && used == old(used) && counter == old(counter)
        invariant slots == old(slots) && slots[..] == old(slots[..])
        invariant i == SlotOf(|log|) || (i == 2 && |log| == 1)
      {
        if slots[i].env == SlotSentinel {
          i := i + 1;
          continue;
        }
        var was := slots[i].env;
        slots[i] := slots[i].(env := env);
        if was != SlotFree {
          // The slot would be given back here, but nothing behind the mark is taken.
          assert false;
        }
        counter := counter + 1;
        slots[i] := slots[i].(token := counter, tcb := tcb, flags := if tso then FlagTso else 0);
        if used < i + 1 {
          used := i + 1;
        }
        OneMoreHeld(old(slots[..]), log, env, tcb, tso);
        assert slots[..] == old(slots[..])[i := slots[i]];
        log := Registered(log, env, tcb, tso);
        return OK, slots[i].token;
      }
      code := FULL;
    }

    /** The word naming the environment is cleared; the rest of the slot and the
    mark stay. */
    method FreeSlot(env: Word) returns (code: Code)
      requires Valid()
      modifies this, slots
      ensures Valid() && slots == old(slots) && used == old(used) && counter == old(counter)
      ensures log == Released(old(log), env)
      ensures code == if Oldest(old(log), env).None? then NOT_FOUND else OK
      ensures forall s :: 0 <= s < TotalSlots ==>
                slots[s] == if SlotIn(Oldest(old(log), env)) == Some(s) then old(slots[s]).(env := SlotFree) else old(slots[s])
    {
      if env == SlotFree || env == SlotSentinel {
        NeverFound(log, slots[..], env);
        return NOT_FOUND;
      }
      var i := 0;
      while i < used
        invariant 0 <= i <= used
        invariant Valid() && log == old(log) && used == old(used) && counter == old(counter)
        invariant slots[..] == old(slots[..])
        invariant forall s :: 0 <= s < i ==> slots[s].env != env
      {
        if slots[i].env == env {
          FirstMatch(slots[..], log, env, i);
          slots[i] := slots[i].(env := SlotFree);
          log := Released(log, env);
          return OK;
        }
        i := i + 1;
      }
      NoMatch(slots[..], log, env);
      code := NOT_FOUND;
    }

    method FindByEnvblock(env: Word) returns (slot: Option<nat>)
      requires Valid()
      ensures slot == SlotIn(Oldest(log, env))
    {
      if env == SlotFree || env == SlotSentinel {
        NeverFound(log, slots[..], env);
        return None;
      }
      var i := 0;
      while i < used
        invariant 0 <= i <= used
        invariant forall s :: 0 <= s < i ==> slots[s].env != env
      {
        if slots[i].env == env {
          FirstMatch(slots[..], log, env, i);
          return Some(i);
        }
        i := i + 1;
      }
      NoMatch(slots[..], log, env);
      slot := None;
    }

    /** The slot with the greatest token among the live slots of one task control block. */
    method FindByTcb(tcb: Word) returns (slot: Option<nat>)
      requires Valid()
      ensures slot == if tcb == 0 then None else SlotIn(NewestOf(log, tcb))
    {
      if tcb == 0 {
        return None;
      }
      slot := None;
      var i := 0;
      while i < used
        invariant 0 <= i <= used
        invariant slot.None? ==> forall s :: 0 <= s < i ==> !(Occupied(slots[s]) && slots[s].tcb == tcb)
        invariant slot.Some? ==> slot.value < i && Occupied(slots[slot.value]) && slots[slot.value].tcb == tcb
        invariant slot.Some? ==> forall s :: slot.value < s < i ==> !(Occupied(slots[s]) && slots[s].tcb == tcb)
      {
        if Occupied(slots[i]) && slots[i].tcb == tcb {
          if slot.Some? {
            TokensRise(slots[..], log, slot.value, i);
          }
          if slot.None? || slots[i].token > slots[slot.value].token {
            slot := Some(i);
          }
        }
        i := i + 1;
      }
      LastOfTask(slots[..], log, tcb, slot);
    }

    /** Backwards from the slot before the given one. */
    method FindPreviousUsed(current: Option<nat>) returns (slot: Option<nat>)
      requires Valid()
      requires current.Some? ==> current.value < TotalSlots
      ensures current.None? ==> slot.None?
      ensures current.Some? ==> slot == SlotIn(NewestTso(Before(log, current.value)))
    {
      if current.None? {
        return None;
      }
      var i: int := current.value - 1;
      while i >= 0
        invariant -1 <= i < current.value
        invariant forall s :: i < s < current.value ==> !(Occupied(slots[s]) && IsTso(slots[s]))
      {
        if Occupied(slots[i]) && IsTso(slots[i]) {
          LastTso(slots[..], log, current.value, Some(i));
          return Some(i);
        }
        i := i - 1;
      }
      LastTso(slots[..], log, current.value, None);
      slot := None;
    }
  }

  /** The registrations whose slots come before the given one. */
  function Before(log: seq<Registration>, slot: nat): (b: seq<Registration>) {
    if |log| == 0 || slot >= Mark(|log|) then log
    else Before(log[..|log| - 1], slot)
  }

  lemma {:induction false} BeforeIs(log: seq<Registration>, slot: nat)
    ensures Before(log, slot) <= log
    ensures forall n :: 0 <= n < |log| ==> (n < |Before(log, slot)| <==> SlotOf(n) < slot)
  {
    if !(|log| == 0 || slot >= Mark(|log|)) {
      BeforeIs(log[..|log| - 1], slot);
    }
  }

  lemma {:induction false} BeforeOwn(log: seq<Registration>, n: nat)
    requires n < |log|
    ensures |Before(log, SlotOf(n))| == n
  {
    if n + 1 < |log| {
      BeforeOwn(log[..|log| - 1], n);
    } else {
      var init := log[..n];
      assert Before(log, SlotOf(n)) == Before(init, SlotOf(n)) == init;
    }
  }

  // ---- Slots and registrations --------------------------------------------------------------

  lemma LiveSlots(slots: seq<Entry>, log: seq<Registration>, s: nat)
    requires Holds(slots, log) && s < TotalSlots
    ensures Occupied(slots[s]) <==> s != 0 && s != 2 && Position(s) < |log| && log[Position(s)].live
    ensures Occupied(slots[s]) ==> Shows(slots[s], log[Position(s)], Position(s))
  {
    if s != 0 && s != 2 {
      if Position(s) < |log| {
        assert Shows(slots[SlotOf(Position(s))], log[Position(s)], Position(s));
      } else {
        assert Mark(|log|) <= s;
      }
    }
  }

  lemma NeverFound(log: seq<Registration>, slots: seq<Entry>, env: Word)
    requires Holds(slots, log)
    requires env == SlotFree || env == SlotSentinel
    ensures Oldest(log, env) == None
  {
    forall j | 0 <= j < |log|
      ensures !(log[j].live && log[j].env == env)
    {
      assert Shows(slots[SlotOf(j)], log[j], j);
    }
    OldestIs(log, env, 0);
  }

  lemma FirstMatch(slots: seq<Entry>, log: seq<Registration>, env: Word, i: nat)
    requires Holds(slots, log) && i < TotalSlots
    requires env != SlotFree && env != SlotSentinel
    requires slots[i].env == env && forall s :: 0 <= s < i ==> slots[s].env != env
    ensures SlotIn(Oldest(log, env)) == Some(i)
    ensures Holds(slots[i := slots[i].(env := SlotFree)], Released(log, env))
  {
    LiveSlots(slots, log, i);
    var n := Position(i);
    forall j | 0 <= j < n
      ensures !(log[j].live && log[j].env == env)
    {
      assert Shows(slots[SlotOf(j)], log[j], j);
    }
    OldestIs(log, env, n);
    assert Released(log, env) == log[n := log[n].(live := false)];
  }

  lemma NoMatch(slots: seq<Entry>, log: seq<Registration>, env: Word)
    requires Holds(slots, log)
    requires env != SlotFree
    requires forall s :: 0 <= s < Mark(|log|) ==> slots[s].env != env
    ensures Oldest(log, env) == None
  {
    forall j | 0 <= j < |log|
      ensures !(log[j].live && log[j].env == env)
    {
      assert Shows(slots[SlotOf(j)], log[j], j);
    }
    OldestIs(log, env, 0);
  }

  /** Tokens increase with the slot. */
  lemma TokensRise(slots: seq<Entry>, log: seq<Registration>, s: nat, t: nat)
    requires Holds(slots, log)
    requires s < t < Mark(|log|) && s != 0 && s != 2 && t != 2
    ensures slots[s].token < slots[t].token
  {
    assert Shows(slots[SlotOf(Position(s))], log[Position(s)], Position(s));
    assert Shows(slots[SlotOf(Position(t))], log[Position(t)], Position(t));
  }

  lemma LastOfTask(slots: seq<Entry>, log: seq<Registration>, tcb: Word, slot: Option<nat>)
    requires Holds(slots, log)
    requires slot.None? ==> forall s :: 0 <= s < Mark(|log|) ==> !(Occupied(slots[s]) && slots[s].tcb == tcb)
    requires slot.Some? ==> slot.value < Mark(|log|) && Occupied(slots[slot.value]) && slots[slot.value].tcb == tcb
    requires slot.Some? ==> forall s :: slot.value < s < Mark(|log|) ==> !(Occupied(slots[s]) && slots[s].tcb == tcb)
    ensures slot == SlotIn(NewestOf(log, tcb))
  {
    forall j | 0 <= j < |log| && (slot.Some? ==> slot.value < SlotOf(j))
      ensures !(log[j].live && log[j].tcb == tcb)
    {
      LiveSlots(slots, log, SlotOf(j));
    }
    if slot.Some? {
      LiveSlots(slots, log, slot.value);
      NewestOfIs(log, tcb, Position(slot.value));
    } else {
      NewestOfIs(log, tcb, 0);
    }
  }

  lemma LastTso(slots: seq<Entry>, log: seq<Registration>, current: nat, slot: Option<nat>)
    requires Holds(slots, log) && current < TotalSlots
    requires slot.None? ==> forall s :: 0 <= s < current ==> !(Occupied(slots[s]) && IsTso(slots[s]))
    requires slot.Some? ==> slot.value < current && Occupied(slots[slot.value]) && IsTso(slots[slot.value])
    requires slot.Some? ==> forall s :: slot.value < s < current ==> !(Occupied(slots[s]) && IsTso(slots[s]))
    ensures slot == SlotIn(NewestTso(Before(log, current)))
  {
    var b := Before(log, current);
    BeforeIs(log, current);
    forall j | 0 <= j < |b| && (slot.Some? ==> slot.value < SlotOf(j))
      ensures !(b[j].live && b[j].tso)
    {
      LiveSlots(slots, log, SlotOf(j));
      assert b[j] == log[j];
    }
    if slot.Some? {
      LiveSlots(slots, log, slot.value);
      var n := Position(slot.value);
      assert b[n] == log[n];
      NewestTsoIs(b, n);
    } else {
      NewestTsoIs(b, 0);
    }
  }

  // ---- Histories ----------------------------------------------------------------------------

  datatype Event =
    | Alloc(env: Word, tcb: Word, tso: bool)
    | Free(env: Word)

  function Step(log: seq<Registration>, e: Event): seq<Registration> {
    match e
    case Alloc(env, tcb, tso) => Registered(log, env, tcb, tso)
    case Free(env) => Released(log, env)
  }

  function History(log: seq<Registration>, events: seq<Event>): seq<Registration>
    decreases |events|
  {
    if events == [] then log else History(Step(log, events[0]), events[1..])
  }

  /** The number of requests that name an environment at all. */
  function Requests(events: seq<Event>): nat {
    if events == [] then 0
    else (if events[0].Alloc? && events[0].env != SlotFree then 1 else 0) + Requests(events[1..])
  }

  /** Whatever is freed in between, the log has one registration for each request
  until 62 have been served, and none after: no free ever makes room. */
  lemma {:induction false} SixtyTwoEver(log: seq<Registration>, events: seq<Event>)
    requires |log| <= Capacity
    ensures |History(log, events)| ==
              if |log| + Requests(events) <= 62 then |log| + Requests(events) else 62
    decreases |events|
  {
    if events != [] {
      SixtyTwoEver(Step(log, events[0]), events[1..]);
    }
  }

  /** What a log may become: everything recorded stays where it is, and nothing
  that is gone comes back. */
  predicate Extends(later: seq<Registration>, log: seq<Registration>) {
    && |log| <= |later|
    && forall n :: 0 <= n < |log| ==>
         && later[n].env == log[n].env && later[n].tcb == log[n].tcb && later[n].tso == log[n].tso
         && (later[n].live ==> log[n].live)
  }

  /** No slot is ever reused, and the mark never falls. */
  lemma {:induction false} NothingIsReused(log: seq<Registration>, events: seq<Event>)
    ensures Extends(History(log, events), log)
    ensures Mark(|log|) <= Mark(|History(log, events)|)
    decreases |events|
  {
    if events != [] {
      NothingIsReused(Step(log, events[0]), events[1..]);
    }
  }

  /** Environments that come and go, each with others inside its lifetime. */
  datatype Nest =
    | Quiet
    | Session(env: Word, tcb: Word, tso: bool, inner: Nest, rest: Nest)

  function Events(n: Nest): seq<Event> {
    match n
    case Quiet => []
    case Session(env, tcb, tso, inner, rest) =>
      [Alloc(env, tcb, tso)] + Events(inner) + [Free(env)] + Events(rest)
  }

  /** No environment is registered while it is live already. */
  predicate Apart(n: Nest, live: set<Word>) {
    match n
    case Quiet => true
    case Session(env, _, _, inner, rest) =>
      env != SlotFree && env !in live && Apart(inner, live + {env}) && Apart(rest, live)
  }

  predicate LiveIn(log: seq<Registration>, live: set<Word>) {
    forall i :: 0 <= i < |log| && log[i].live ==> log[i].env in live
  }

  /** Only registrations that are gone again have been added. */
  predicate OnlyGone(log: seq<Registration>, later: seq<Registration>) {
    && |log| <= |later| && later[..|log|] == log
    && forall i :: |log| <= i < |later| ==> !later[i].live
  }

  lemma {:induction false} HistoryJoin(log: seq<Registration>, a: seq<Event>, b: seq<Event>)
    ensures History(log, a + b) == History(History(log, a), b)
    decreases |a|
  {
    if a == [] {
      assert a + b == b;
    } else {
      assert (a + b)[1..] == a[1..] + b;
      HistoryJoin(Step(log, a[0]), a[1..], b);
    }
  }

  lemma HistoryOne(log: seq<Registration>, e: Event)
    ensures History(log, [e]) == Step(log, e)
  {
    assert History(Step(log, e), []) == Step(log, e);
  }

  lemma OnlyGoneLooksAlike(log: seq<Registration>, later: seq<Registration>, tcb: Word, env: Word)
    requires OnlyGone(log, later)
    ensures NewestTso(later) == NewestTso(log)
    ensures NewestOf(later, tcb) == NewestOf(log, tcb)
    ensures Oldest(later, env) == Oldest(log, env)
    decreases |later|
  {
    if |later| == |log| {
      assert later == log;
    } else {
      var init := later[..|later| - 1];
      assert init[..|log|] == log;
      OnlyGoneLooksAlike(log, init, tcb, env);
    }
  }

  lemma FreedAgain(log: seq<Registration>, r: Registration, later: seq<Registration>)
    requires OnlyGone(log + [r], later)
    requires Oldest(log, r.env) == None
    ensures OnlyGone(log, Released(later, r.env))
  {
    hide Oldest, Released, OnlyGone;
    OnlyGoneParts(log, r, later);
    OldestIs(log, r.env, 0);
    var n := |log|;
    forall j | 0 <= j < n
      ensures !(later[j].live && later[j].env == r.env)
    {
      assert later[j] == log[j];
    }
    OldestIs(later, r.env, n);
    ReleasedAt(later, r.env, n);
    AddedGone(log, Released(later, r.env));
  }

  lemma OnlyGoneParts(log: seq<Registration>, r: Registration, later: seq<Registration>)
    requires OnlyGone(log + [r], later)
    ensures |later| > |log| && later[|log|] == r
    ensures forall j :: 0 <= j < |log| ==> later[j] == log[j]
    ensures forall j :: |log| < j < |later| ==> !later[j].live
  {
    var n := |log|;
    assert later[n] == later[..n + 1][n] == (log + [r])[n];
    forall j | 0 <= j < n
      ensures later[j] == log[j]
    {
      assert later[j] == later[..n + 1][j] == (log + [r])[j];
    }
  }

  /** Of a log whose only live registration of env, if any, is the one at n. */
  lemma ReleasedAt(log: seq<Registration>, env: Word, n: nat)
    requires n < |log|
    requires (Oldest(log, env) == None && !(log[n].live && log[n].env == env)) || Oldest(log, env) == Some(n)
    ensures |Released(log, env)| == |log|
    ensures forall j :: 0 <= j < |log| && j != n ==> Released(log, env)[j] == log[j]
    ensures log[n].env == env ==> !Released(log, env)[n].live
  {
    hide Oldest;
  }

  lemma AddedGone(log: seq<Registration>, later: seq<Registration>)
    requires |log| <= |later|
    requires forall j :: 0 <= j < |log| ==> later[j] == log[j]
    requires forall j :: |log| <= j < |later| ==> !later[j].live
    ensures OnlyGone(log, later)
  {
    assert later[..|log|] == log;
  }

  /** However deeply environments nest, once all have gone the newest TSO-attached one, the newest
  one of every task and the registration of every environment are what they were before. */
  lemma {:induction false} NestsLeaveNothing(log: seq<Registration>, n: Nest, live: set<Word>)
    requires LiveIn(log, live) && Apart(n, live)
    ensures OnlyGone(log, History(log, Events(n)))
    decreases n
  {
    hide Oldest, Released, Registered, Events, History, OnlyGone, LiveIn;
    if n.Session? {
      var l1 := Registered(log, n.env, n.tcb, n.tso);
      RegisteredLive(log, n, live);
      NestsLeaveNothing(l1, n.inner, live + {n.env});
      var l2 := History(l1, Events(n.inner));
      SessionEnds(log, l2, n, live);
      var l3 := Released(l2, n.env);
      GoneAddsNone(log, l3, live);
      NestsLeaveNothing(l3, n.rest, live);
      OnlyGoneThrough(log, l3, History(l3, Events(n.rest)));
      SessionHistory(log, n);
    } else {
      OnlyGoneSame(log, n);
    }
  }

  lemma SessionHistory(log: seq<Registration>, n: Nest)
    requires n.Session?
    ensures var l2 := History(Registered(log, n.env, n.tcb, n.tso), Events(n.inner));
            History(log, Events(n)) == History(Released(l2, n.env), Events(n.rest))
  {
    hide Registered, Released;
    var e, inner, rest := n.env, Events(n.inner), Events(n.rest);
    HistoryJoin(log, [Alloc(e, n.tcb, n.tso)] + inner + [Free(e)], rest);
    HistoryJoin(log, [Alloc(e, n.tcb, n.tso)] + inner, [Free(e)]);
    HistoryJoin(log, [Alloc(e, n.tcb, n.tso)], inner);
    HistoryOne(log, Alloc(e, n.tcb, n.tso));
    HistoryOne(History(Registered(log, e, n.tcb, n.tso), inner), Free(e));
    hide History;
  }

  lemma RegisteredLive(log: seq<Registration>, n: Nest, live: set<Word>)
    requires n.Session? && LiveIn(log, live)
    ensures LiveIn(Registered(log, n.env, n.tcb, n.tso), live + {n.env})
  {
  }

  /** An environment not registered before goes, and what was registered within it has gone. */
  lemma SessionEnds(log: seq<Registration>, l2: seq<Registration>, n: Nest, live: set<Word>)
    requires n.Session? && n.env != SlotFree && LiveIn(log, live) && n.env !in live
    requires OnlyGone(Registered(log, n.env, n.tcb, n.tso), l2)
    ensures OnlyGone(log, Released(l2, n.env))
  {
    hide Oldest, Released, OnlyGone;
    OldestIs(log, n.env, 0);
    if |log| < Capacity {
      FreedAgain(log, Registration(n.env, n.tcb, n.tso, n.env != SlotSentinel), l2);
    } else {
      OnlyGoneLooksAlike(log, l2, n.env, n.env);
      NotReleased(l2, n.env);
    }
  }

  lemma NotReleased(log: seq<Registration>, env: Word)
    requires Oldest(log, env) == None
    ensures Released(log, env) == log
  {
  }

  lemma GoneAddsNone(log: seq<Registration>, later: seq<Registration>, live: set<Word>)
    requires LiveIn(log, live) && OnlyGone(log, later)
    ensures LiveIn(later, live)
  {
    forall i | 0 <= i < |later| && later[i].live
      ensures later[i].env in live
    {
      assert later[..|log|][i] == log[i];
    }
  }

  lemma OnlyGoneThrough(a: seq<Registration>, b: seq<Registration>, c: seq<Registration>)
    requires OnlyGone(a, b) && OnlyGone(b, c)
    ensures OnlyGone(a, c)
  {
    assert c[..|a|] == c[..|b|][..|a|] == a;
    forall i | |a| <= i < |c|
      ensures !c[i].live
    {
      if i < |b| { assert c[i] == c[..|b|][i] == b[i]; }
    }
  }

  lemma OnlyGoneSame(log: seq<Registration>, n: Nest)
    requires n.Quiet?
    ensures OnlyGone(log, History(log, Events(n)))
  {
  }

  /** While the newest live registration of a TSO-attached environment is freed, the
  one found before its slot is the newest of those left: the predecessor that
  termination puts back as current. */
  lemma RollsBack(log: seq<Registration>, n: nat)
    requires |log| <= Capacity
    requires NewestTso(log) == Some(n)
    requires Oldest(log, log[n].env) == Some(n)
    ensures NewestTso(Released(log, log[n].env)) == NewestTso(Before(log, SlotOf(n)))
  {
    var left := Released(log, log[n].env);
    var b := Before(log, SlotOf(n));
    BeforeIs(log, SlotOf(n));
    NewestTsoIs(log, n);
    BeforeOwn(log, n);
    match NewestTso(b)
    case None =>
      NewestTsoIs(b, 0);
      forall j | 0 <= j < |left|
        ensures !(left[j].live && left[j].tso)
      {
        if j < n {
          assert b[j] == log[j];
        }
      }
      NewestTsoIs(left, 0);
    case Some(k) =>
      NewestTsoIs(b, k);
      assert b[k] == log[k];
      forall j | k < j < |left|
        ensures !(left[j].live && left[j].tso)
      {
        if j < n {
          assert b[j] == log[j];
        }
      }
      NewestTsoIs(left, k);
  }
}
