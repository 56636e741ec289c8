/** What every operation of the conversation store keeps, and whom `create` evicts. */
module ConversationBounds {
  import opened Sequences
  import opened ConversationStore

  ghost predicate ByRecency(order: seq<string>, objects: map<string, Conversation>)
  {
    forall i, j :: 0 <= i < j < |order| && order[i] in objects && order[j] in objects ==>
      objects[order[i]].lastActiveAt <= objects[order[j]].lastActiveAt
  }

  /** The bounds the store promises, at time `now`. */
  ghost predicate Valid(s: Store, limits: Limits, now: nat)
  {
    && limits.maxSessions >= 1 && limits.maxTurns >= 1
    && Distinct(s.order)
    && (forall id :: id in s.order ==> id in s.objects)
    && (forall id :: id in s.objects ==> s.objects[id].lastActiveAt <= now && |s.objects[id].turns| <= limits.maxTurns)
    && ByRecency(s.order, s.objects)
    && |s.order| <= limits.maxSessions
    && (forall id :: id in s.owners ==> id in s.order)
  }

  lemma {:induction false} FilterByRecency(order: seq<string>, objects: map<string, Conversation>, keep: string -> bool)
    requires ByRecency(order, objects)
    ensures ByRecency(Filter(order, keep), objects)
  {
    if order != [] {
      var front, last := order[..|order| - 1], order[|order| - 1];
      FilterByRecency(front, objects, keep);
      forall i | 0 <= i < |Filter(front, keep)| ensures Filter(front, keep)[i] in front {
        FilterMember(front, keep, Filter(front, keep)[i]);
      }
      assert forall x :: x in front && x in objects && last in objects ==>
          objects[x].lastActiveAt <= objects[last].lastActiveAt;
    }
  }

  lemma FilterSubset(order: seq<string>, keep: string -> bool)
    ensures forall x :: x in Filter(order, keep) <==> x in order && keep(x)
  {
    forall x ensures x in Filter(order, keep) <==> x in order && keep(x) {
      FilterMember(order, keep, x);
    }
  }

  lemma KeepingStaysValid(s: Store, limits: Limits, now: nat, keep: string -> bool)
    requires Valid(s, limits, now)
    ensures Valid(Keeping(s, Filter(s.order, keep)), limits, now)
  {
    FilterSubset(s.order, keep);
    FilterDistinct(s.order, keep);
    FilterByRecency(s.order, s.objects, keep);
  }

  lemma ForgetStaysValid(s: Store, limits: Limits, now: nat, id: string)
    requires Valid(s, limits, now)
    ensures Valid(Forget(s, id), limits, now)
  {
    FilterSubset(s.order, IsNot(id));
    FilterDistinct(s.order, IsNot(id));
    FilterByRecency(s.order, s.objects, IsNot(id));
  }

  lemma FreeSlotStaysValid(s: Store, limits: Limits, now: nat)
    requires Valid(s, limits, now)
    ensures Valid(WithFreeSlot(s, limits.maxSessions), limits, now)
    ensures |WithFreeSlot(s, limits.maxSessions).order| < limits.maxSessions
  {
    var k := Surplus(|s.order|, limits.maxSessions);
    assert forall x :: x in s.order[k..] ==> x in s.order;
  }

  lemma InsertStaysValid(s: Store, limits: Limits, id: string, owner: Option<string>, now: nat)
    requires Valid(s, limits, now) && |s.order| < limits.maxSessions && id !in s.objects
    ensures Valid(Inserted(s, id, owner, now), limits, now)
  {
    var next := Inserted(s, id, owner, now);
    assert forall x :: x in next.order <==> x in s.order || x == id;
  }

  lemma CreateStaysValid(s: Store, limits: Limits, id: string, owner: Option<string>, now: nat)
    requires Valid(s, limits, now) && id !in s.objects
    ensures Valid(Created(s, limits, id, owner, now), limits, now)
  {
    KeepingStaysValid(s, limits, now, IsLive(s, now, limits.ttlMs));
    var unexpired := WithoutExpired(s, now, limits.ttlMs);
    FreeSlotStaysValid(unexpired, limits, now);
    InsertStaysValid(WithFreeSlot(unexpired, limits.maxSessions), limits, id, owner, now);
  }

  /** Moving an entry to the end at the current time keeps the order by recency. */
  lemma ReinsertStaysValid(s: Store, limits: Limits, id: string, c: Conversation, now: nat)
    requires Valid(s, limits, now) && id !in s.order && |s.order| < limits.maxSessions
    requires c.lastActiveAt == now && |c.turns| <= limits.maxTurns
    ensures var next := Store(s.order + [id], s.objects[id := c], s.owners); Valid(next, limits, now)
  {
    var next := Store(s.order + [id], s.objects[id := c], s.owners);
    assert forall x :: x in next.order <==> x in s.order || x == id;
    assert ByRecency(next.order, next.objects);
  }

  lemma RecordStaysValid(s: Store, limits: Limits, id: string, turn: Turn, now: nat)
    requires Valid(s, limits, now)
    ensures Valid(Recorded(s, limits, id, turn, now), limits, now)
  {
    ForgetStaysValid(s, limits, now, id);
    if Got(s, limits, id, None, now).Found? {
      var c := s.objects[id];
      FilterSubset(s.order, IsNot(id));
      FilterIsNotLength(s.order, id);
      var rest := Forget(s, id);
      ReinsertStaysValid(rest, limits, id, c.(turns := LastN(c.turns + [turn], limits.maxTurns), lastActiveAt := now), now);
      var next := Recorded(s, limits, id, turn, now);
      assert next == Store(rest.order + [id], next.objects, s.owners);
    }
  }

  lemma FilterIsNotLength(order: seq<string>, id: string)
    requires Distinct(order) && id in order
    ensures |Filter(order, IsNot(id))| == |order| - 1
  {
    var i :| 0 <= i < |order| && order[i] == id;
    FilterIsNot(order, i);
  }

  ghost predicate NoMoreRecent(s: Store, a: string, b: string)
  {
    a in s.objects && b in s.objects && s.objects[a].lastActiveAt <= s.objects[b].lastActiveAt
  }

  /**
   * `create` evicts exactly the expired conversations, and at most one live one: only when
   * the live ones alone fill every slot, and then the one least recently active.
   */
  lemma CreateEvictsExactly(s: Store, limits: Limits, id: string, owner: Option<string>, now: nat)
    requires Valid(s, limits, now) && id !in s.objects
    ensures var live := Filter(s.order, IsLive(s, now, limits.ttlMs));
            var after := Created(s, limits, id, owner, now);
            && after.order == (if |live| < limits.maxSessions then live else live[1..]) + [id]
            && (|live| >= limits.maxSessions ==>
                  |live| == limits.maxSessions
                  && forall other :: other in live ==> NoMoreRecent(s, live[0], other))
            && (forall x :: x in after.owners && x != id <==> x in s.owners && x in after.order && x != id)
            && (forall x :: x in s.objects ==> x in after.objects && after.objects[x] == s.objects[x])
  {
    var keep := IsLive(s, now, limits.ttlMs);
    var live := Filter(s.order, keep);
    FilterSubset(s.order, keep);
    FilterByRecency(s.order, s.objects, keep);
    KeepingStaysValid(s, limits, now, keep);
    var after := Created(s, limits, id, owner, now);
    var k := Surplus(|live|, limits.maxSessions);
    assert live[k..] == if |live| < limits.maxSessions then live else live[1..];
    assert forall x :: x in after.order <==> x in live[k..] || x == id;
    forall other | other in live && |live| >= limits.maxSessions
      ensures NoMoreRecent(s, live[0], other)
    {
      var j :| 0 <= j < |live| && live[j] == other;
      assert live[0] in live;
    }
  }
}
