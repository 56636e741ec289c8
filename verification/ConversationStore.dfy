/**
 * Conversations in memory: a map iterated in insertion order and kept in order of
 * recency, bounded by a TTL, a window of turns and a session cap, with ownership held
 * beside it. Times are milliseconds; one synchronous operation happens at one instant.
 */
module ConversationStore {
  import opened Sequences

  datatype SqlGeneration = SqlGeneration(answerable: bool, sql: string, explanation: string, tables: seq<string>)

  datatype Turn = Turn(question: string, generation: SqlGeneration, askedAt: nat)

  datatype Conversation = Conversation(createdAt: nat, lastActiveAt: nat, turns: seq<Turn>)

  datatype Limits = Limits(ttlMs: nat, maxTurns: nat, maxSessions: nat)

  /**
   * `order` lists the ids in the map, in iteration order. `objects` holds every
   * conversation object ever made: one that left the map lives on for whoever still
   * has a reference to it. `owners` is the side table.
   */
  datatype Store = Store(order: seq<string>, objects: map<string, Conversation>, owners: map<string, string>)

  datatype Lookup = Found(id: string) | NotFound

  const NO_CONVERSATIONS := Store([], map[], map[])

  // ---------------------------------------------------------------- the operations, on values

  predicate Expired(c: Conversation, now: nat, ttlMs: nat)
  {
    now - c.lastActiveAt > ttlMs
  }

  predicate Live(s: Store, now: nat, ttlMs: nat, id: string)
  {
    id in s.objects && !Expired(s.objects[id], now, ttlMs)
  }

  function IsLive(s: Store, now: nat, ttlMs: nat): string -> bool
  {
    (id: string) => Live(s, now, ttlMs, id)
  }

  function IsNot(id: string): string -> bool
  {
    (other: string) => other != id
  }

  /** The store with only the ids of `kept` left in the map, and nobody else's ownership record. */
  function Keeping(s: Store, kept: seq<string>): (r: Store)
  {
    Store(kept, s.objects, OwnersKeeping(s, kept))
  }

  function OwnersKeeping(s: Store, kept: seq<string>): (r: map<string, string>)
  {
    map id | id in s.owners && !(id in s.order && id !in kept) :: s.owners[id]
  }

  function Forget(s: Store, id: string): (r: Store)
  {
    Store(Filter(s.order, IsNot(id)), s.objects, s.owners - {id})
  }

  function WithoutExpired(s: Store, now: nat, ttlMs: nat): (r: Store)
  {
    Keeping(s, Filter(s.order, IsLive(s, now, ttlMs)))
  }

  /** How many must go before there is a free slot. */
  function Surplus(count: nat, maxSessions: nat): (r: nat)
    ensures r <= count
  {
    if count < maxSessions then 0 else if maxSessions == 0 then count else count - maxSessions + 1
  }

  function WithFreeSlot(s: Store, maxSessions: nat): (r: Store)
  {
    Keeping(s, s.order[Surplus(|s.order|, maxSessions)..])
  }

  predicate Given(owner: Option<string>)
  {
    owner.Some? && owner.value != ""
  }

  function Inserted(s: Store, id: string, owner: Option<string>, now: nat): (r: Store)
  {
    Store(s.order + [id], s.objects[id := Conversation(now, now, [])],
          if Given(owner) then s.owners[id := owner.value] else s.owners)
  }

  function Created(s: Store, limits: Limits, id: string, owner: Option<string>, now: nat): (r: Store)
  {
    Inserted(WithFreeSlot(WithoutExpired(s, now, limits.ttlMs), limits.maxSessions), id, owner, now)
  }

  predicate OwnedBy(s: Store, id: string, owner: string)
  {
    id in s.owners ==> s.owners[id] == owner
  }

  function Got(s: Store, limits: Limits, id: string, owner: Option<string>, now: nat): (r: Lookup)
  {
    if id !in s.order || !Live(s, now, limits.ttlMs, id) then NotFound
    else if Given(owner) && !OwnedBy(s, id, owner.value) then NotFound
    else Found(id)
  }

  function AfterGet(s: Store, limits: Limits, id: string, now: nat): (r: Store)
  {
    if id in s.order && !Live(s, now, limits.ttlMs, id) then Forget(s, id) else s
  }

  function Recorded(s: Store, limits: Limits, id: string, turn: Turn, now: nat): (r: Store)
  {
    if Got(s, limits, id, None, now).NotFound? || id !in s.objects then AfterGet(s, limits, id, now)
    else
      var c := s.objects[id];
      Store(Filter(s.order, IsNot(id)) + [id],
            s.objects[id := c.(turns := LastN(c.turns + [turn], limits.maxTurns), lastActiveAt := now)],
            s.owners)
  }

  function Deletable(s: Store, id: string, owner: Option<string>): (r: Lookup)
  {
    if id !in s.order || (Given(owner) && !OwnedBy(s, id, owner.value)) then NotFound else Found(id)
  }

  function Deleted(s: Store, id: string, owner: Option<string>): (r: Store)
  {
    if Deletable(s, id, owner).Found? then Forget(s, id) else s
  }

  // ---------------------------------------------------------------- the service

  class ConversationService {
    const limits: Limits
    var order: seq<string>
    var objects: map<string, Conversation>
    var owners: map<string, string>

    constructor (limits: Limits)
      ensures this.limits == limits && State() == NO_CONVERSATIONS
    {
      this.limits := limits;
      order, objects, owners := [], map[], map[];
    }

    function State(): (r: Store)
      reads this
    {
      Store(order, objects, owners)
    }

    method Create(id: string, owner: Option<string>, now: nat)
      requires Distinct(order) && id !in objects
      modifies this
      ensures State() == Created(old(State()), limits, id, owner, now)
    {
      EvictExpired(now);
      FilterDistinct(old(order), IsLive(old(State()), now, limits.ttlMs));
      EvictOverflow();
      Insert(id, owner, now);
    }

    method Insert(id: string, owner: Option<string>, now: nat)
      modifies this
      ensures State() == Inserted(old(State()), id, owner, now)
    {
      objects := objects[id := Conversation(now, now, [])];
      order := order + [id];
      if owner.Some? && owner.value != "" {
        owners := owners[id := owner.value];
      }
    }

    method Get(id: string, owner: Option<string>, now: nat) returns (found: Lookup)
      modifies this
      ensures found == Got(old(State()), limits, id, owner, now)
      ensures State() == AfterGet(old(State()), limits, id, now)
    {
      if id !in order {
        return NotFound;
      }
      if !Live(State(), now, limits.ttlMs, id) {
        DropEntry(id);
        return NotFound;
      }
      if owner.Some? && owner.value != "" && !OwnedBy(State(), id, owner.value) {
        return NotFound;
      }
      return Found(id);
    }

    method Resolve(id: Option<string>, freshId: string, owner: Option<string>, now: nat) returns (found: Lookup)
      requires Distinct(order) && freshId !in objects
      modifies this
      ensures found == if Given(id) then Got(old(State()), limits, id.value, owner, now) else Found(freshId)
      ensures State() == if Given(id) then AfterGet(old(State()), limits, id.value, now)
                         else Created(old(State()), limits, freshId, owner, now)
    {
      if id.Some? && id.value != "" {
        found := Get(id.value, owner, now);
      } else {
        Create(freshId, owner, now);
        found := Found(freshId);
      }
    }

    method Record(id: string, turn: Turn, now: nat) returns (found: Lookup)
      requires id in order ==> id in objects
      modifies this
      ensures found == Got(old(State()), limits, id, None, now)
      ensures State() == Recorded(old(State()), limits, id, turn, now)
    {
      found := Get(id, None, now);
      if found.Found? {
        var turns := objects[id].turns + [turn];
        if |turns| > limits.maxTurns {
          turns := turns[|turns| - limits.maxTurns..];
        }
        objects := objects[id := objects[id].(turns := turns, lastActiveAt := now)];
        order := Filter(order, IsNot(id)) + [id];
      }
    }

    method Delete(id: string, owner: Option<string>) returns (found: Lookup)
      modifies this
      ensures found == Deletable(old(State()), id, owner)
      ensures State() == Deleted(old(State()), id, owner)
    {
      if owner.Some? && owner.value != "" && id in order && !OwnedBy(State(), id, owner.value) {
        return NotFound;
      }
      if id !in order {
        return NotFound;
      }
      order := Filter(order, IsNot(id));
      owners := owners - {id};
      return Found(id);
    }

    method DropEntry(id: string)
      modifies this
      ensures State() == Forget(old(State()), id)
    {
      order := Filter(order, IsNot(id));
      owners := owners - {id};
    }

    method Stats(now: nat) returns (active: nat)
      requires Distinct(order)
      modifies this
      ensures State() == WithoutExpired(old(State()), now, limits.ttlMs)
      ensures active == |order|
    {
      EvictExpired(now);
      active := |order|;
    }

    /** Iterates the map while entries leave it: `i` is where the iterator stands. */
    method EvictExpired(now: nat)
      requires Distinct(order)
      modifies this
      ensures State() == WithoutExpired(old(State()), now, limits.ttlMs)
    {
      ghost var before := State();
      ghost var live := IsLive(before, now, limits.ttlMs);
      ghost var seen := 0;
      var i := 0;
      SweepStart(before, live);
      while i < |order|
        invariant Sweeping(before, live, seen, State(), i)
        decreases |before.order| - seen
      {
        SweepVisit(before, now, limits.ttlMs, seen, State(), i);
        if Live(State(), now, limits.ttlMs, order[i]) {
          i := i + 1;
        } else {
          DropEntry(order[i]);
        }
        seen := seen + 1;
      }
      SweepDone(before, live, seen, State(), i);
    }

    method EvictOverflow()
      requires Distinct(order)
      modifies this
      ensures State() == WithFreeSlot(old(State()), limits.maxSessions)
    {
      ghost var before := State();
      ghost var gone := 0;
      while |order| >= limits.maxSessions
        invariant gone <= Surplus(|before.order|, limits.maxSessions)
        invariant order == before.order[gone..]
        invariant State() == Keeping(before, order)
        decreases |order|
      {
        if order == [] {
          return;
        }
        DroppingFirst(before, gone);
        DropEntry(order[0]);
        gone := gone + 1;
      }
    }
  }

  // ---------------------------------------------------------------- what the loops rely on

  ghost predicate Distinct(order: seq<string>)
  {
    forall i, j :: 0 <= i < j < |order| ==> order[i] != order[j]
  }

  lemma FilterIsNotAbsent(order: seq<string>, id: string)
    requires id !in order
    ensures Filter(order, IsNot(id)) == order
  {
    FilterAll(order, IsNot(id));
  }

  lemma FilterIsNotBetween(a: seq<string>, id: string, b: seq<string>)
    requires id !in a && id !in b
    ensures Filter(a + [id] + b, IsNot(id)) == a + b
  {
    var keep := IsNot(id);
    FilterConcat(a + [id], b, keep);
    FilterPush(a, id, keep);
    FilterIsNotAbsent(a, id);
    FilterIsNotAbsent(b, id);
    assert a + [] == a;
  }

  lemma FilterIsNot(order: seq<string>, i: nat)
    requires Distinct(order) && i < |order|
    ensures Filter(order, IsNot(order[i])) == order[..i] + order[i + 1..]
  {
    var id, a, b := order[i], order[..i], order[i + 1..];
    assert order == a + [id] + b;
    assert id !in a && id !in b;
    FilterIsNotBetween(a, id, b);
  }

  lemma {:induction false} FilterDistinct(order: seq<string>, keep: string -> bool)
    requires Distinct(order)
    ensures Distinct(Filter(order, keep))
  {
    if order != [] {
      FilterDistinct(order[..|order| - 1], keep);
      forall x ensures x in Filter(order[..|order| - 1], keep) <==> x in order[..|order| - 1] && keep(x) {
        FilterMember(order[..|order| - 1], keep, x);
      }
    }
  }

  /** The map half-way through the sweep: what was kept, then what is still to be seen. */
  function Unswept(order: seq<string>, keep: string -> bool, seen: nat): (r: seq<string>)
    requires seen <= |order|
  {
    Filter(order[..seen], keep) + order[seen..]
  }

  /** Where the sweep stands: the first `seen` entries decided, the iterator at `i`. */
  ghost predicate Sweeping(before: Store, keep: string -> bool, seen: nat, s: Store, i: nat)
  {
    && Distinct(before.order) && seen <= |before.order|
    && i == |Filter(before.order[..seen], keep)|
    && s == Keeping(before, Unswept(before.order, keep, seen))
  }

  lemma SweepStart(before: Store, keep: string -> bool)
    requires Distinct(before.order)
    ensures Sweeping(before, keep, 0, before, 0)
  {
    assert Unswept(before.order, keep, 0) == before.order;
    assert OwnersKeeping(before, before.order) == before.owners;
  }

  /** Visiting one entry: kept, the iterator moves on; dropped, the next one moves under it. */
  lemma SweepVisit(before: Store, now: nat, ttlMs: nat, seen: nat, s: Store, i: nat)
    requires Sweeping(before, IsLive(before, now, ttlMs), seen, s, i) && i < |s.order|
    ensures seen < |before.order|
    ensures if Live(s, now, ttlMs, s.order[i]) then Sweeping(before, IsLive(before, now, ttlMs), seen + 1, s, i + 1)
            else Sweeping(before, IsLive(before, now, ttlMs), seen + 1, Forget(s, s.order[i]), i)
  {
    var keep := IsLive(before, now, ttlMs);
    assert s.order[i] == before.order[seen];
    UnsweptNext(before.order, keep, seen);
    if !keep(before.order[seen]) {
      DroppingKeeps(before, keep, seen);
    }
  }

  lemma UnsweptNext(order: seq<string>, keep: string -> bool, seen: nat)
    requires seen < |order|
    ensures Filter(order[..seen + 1], keep) == Filter(order[..seen], keep) + if keep(order[seen]) then [order[seen]] else []
    ensures Unswept(order, keep, seen + 1)
         == if keep(order[seen]) then Unswept(order, keep, seen) else Filter(order[..seen], keep) + order[seen + 1..]
  {
    FilterPush(order[..seen], order[seen], keep);
    assert order[..seen + 1] == order[..seen] + [order[seen]];
    assert order[seen..] == [order[seen]] + order[seen + 1..];
  }

  lemma SweepDone(before: Store, keep: string -> bool, seen: nat, s: Store, i: nat)
    requires Sweeping(before, keep, seen, s, i) && i >= |s.order|
    ensures s == Keeping(before, Filter(before.order, keep))
  {
    assert before.order[..seen] == before.order;
  }

  lemma UnsweptDistinct(order: seq<string>, keep: string -> bool, seen: nat)
    requires Distinct(order) && seen <= |order|
    ensures Distinct(Unswept(order, keep, seen))
    ensures forall x :: x in Unswept(order, keep, seen) ==> x in order
  {
    var kept := Filter(order[..seen], keep);
    FilterDistinct(order[..seen], keep);
    forall x | x in kept ensures x in order[..seen] {
      FilterMember(order[..seen], keep, x);
    }
    forall i, j | 0 <= i < |kept| && 0 <= j < |order| - seen ensures kept[i] != order[seen..][j] {
      assert kept[i] in order[..seen];
      var k :| 0 <= k < seen && order[k] == kept[i];
      assert order[k] != order[seen + j];
    }
  }

  lemma ForgetOne(before: Store, order: seq<string>, i: nat)
    requires Distinct(order) && i < |order| && (forall x :: x in order ==> x in before.order)
    ensures Forget(Keeping(before, order), order[i]) == Keeping(before, order[..i] + order[i + 1..])
  {
    FilterIsNot(order, i);
    var rest := order[..i] + order[i + 1..];
    forall x ensures x in rest <==> x in order && x != order[i] {
      if x in order && x != order[i] {
        var k :| 0 <= k < |order| && order[k] == x;
        assert rest[if k < i then k else k - 1] == x;
      }
    }
    assert Forget(Keeping(before, order), order[i]).owners == Keeping(before, rest).owners;
  }

  /** Dropping the entry the iterator stands on keeps exactly the rest. */
  lemma DroppingKeeps(before: Store, keep: string -> bool, seen: nat)
    requires Distinct(before.order) && seen < |before.order|
    ensures Forget(Keeping(before, Unswept(before.order, keep, seen)), before.order[seen])
         == Keeping(before, Filter(before.order[..seen], keep) + before.order[seen + 1..])
  {
    var order, kept := Unswept(before.order, keep, seen), Filter(before.order[..seen], keep);
    UnsweptDistinct(before.order, keep, seen);
    ForgetOne(before, order, |kept|);
    assert order[..|kept|] == kept && order[|kept| + 1..] == before.order[seen + 1..];
  }

  lemma DroppingFirst(before: Store, gone: nat)
    requires Distinct(before.order) && gone < |before.order|
    ensures Forget(Keeping(before, before.order[gone..]), before.order[gone]) == Keeping(before, before.order[gone + 1..])
  {
    var order := before.order[gone..];
    ForgetOne(before, order, 0);
    assert order[..0] + order[1..] == before.order[gone + 1..];
  }
}
