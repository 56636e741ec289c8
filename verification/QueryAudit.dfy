/** The audit trail: a bounded ring that agrees with the full history it forgets. */
module QueryAudit {
  import opened Sequences
  import opened JsonTree

  datatype Outcome = Succeeded | Rejected | Failed | Unanswerable | DryRun

  /** A statement as audited: text the model proposed, or the tree of the bounded statement. */
  datatype Statement = Proposed(text: string) | Bounded(tree: Record)

  datatype AuditEntry = AuditEntry(
    conversationId: string, clientId: Option<string>, question: string, sql: Statement, tables: seq<string>,
    outcome: Outcome, rowCount: Option<nat>, durationMs: Option<nat>, reason: Option<string>)

  datatype Stamped = Stamped(at: nat, entry: AuditEntry)

  function OfClient(clientId: string): Stamped -> bool
  {
    (e: Stamped) => e.entry.clientId == Some(clientId)
  }

  /** What a caller may see: its own entries, or everything when it has no identity. */
  function Visible(entries: seq<Stamped>, clientId: Option<string>): (r: seq<Stamped>)
  {
    if clientId.Some? && clientId.value != "" then Filter(entries, OfClient(clientId.value)) else entries
  }

  /** `slice(-limit)`; a limit of zero slices nothing off. */
  function SliceFromEnd<T>(s: seq<T>, limit: nat): (r: seq<T>)
  {
    if limit == 0 then s else LastN(s, limit)
  }

  class QueryAuditService {
    const limit: nat
    var entries: seq<Stamped>
    ghost var history: seq<Stamped>

    ghost predicate Valid()
      reads this
    {
      entries == LastN(history, limit)
    }

    constructor (auditHistory: nat)
      ensures Valid() && limit == auditHistory && history == []
    {
      limit := auditHistory;
      entries, history := [], [];
    }

    method Record(entry: AuditEntry, at: nat)
      requires Valid()
      modifies this
      ensures Valid() && history == old(history) + [Stamped(at, entry)]
    {
      WindowPush(history, Stamped(at, entry), limit);
      history := history + [Stamped(at, entry)];
      entries := entries + [Stamped(at, entry)];
      if |entries| > limit {
        entries := entries[|entries| - limit..];
      }
    }

    method Recent(count: nat, clientId: Option<string>) returns (recent: seq<Stamped>)
      requires Valid()
      ensures recent == Reverse(SliceFromEnd(Visible(LastN(history, limit), clientId), count))
    {
      var visible := entries;
      if clientId.Some? && clientId.value != "" {
        visible := Filter(entries, OfClient(clientId.value));
      }
      if count > 0 && |visible| > count {
        visible := visible[|visible| - count..];
      }
      recent := Reverse(visible);
    }
  }

  lemma LastNOfConcat<T>(a: seq<T>, b: seq<T>)
    ensures LastN(a + b, |b|) == b
  {
    assert (a + b)[|a|..] == b;
  }

  /** Filtering the ring gives a suffix of the filtered history: the view has no gaps. */
  lemma VisibleRingIsASuffix(history: seq<Stamped>, ring: nat, clientId: Option<string>)
    ensures var seen := Visible(LastN(history, ring), clientId);
            seen == LastN(Visible(history, clientId), |seen|)
  {
    var kept := LastN(history, ring);
    var gone := history[..|history| - |kept|];
    assert history == gone + kept;
    if clientId.Some? && clientId.value != "" {
      FilterConcat(gone, kept, OfClient(clientId.value));
      LastNOfConcat(Filter(gone, OfClient(clientId.value)), Filter(kept, OfClient(clientId.value)));
    } else {
      LastNOfConcat(gone, kept);
    }
  }

  lemma LastNTwice<T>(s: seq<T>, n: nat, m: nat)
    requires n <= |s|
    ensures LastN(LastN(s, n), m) == LastN(s, if m <= n then m else n)
  {
  }

  /**
   * What a client is shown is the newest entries of its own full history, newest first,
   * with none left out in between: as many as asked for, or as many as the ring still
   * holds. A count of zero asks for everything the ring holds.
   */
  lemma RecentIsGapFree(history: seq<Stamped>, ring: nat, count: nat, clientId: Option<string>)
    ensures var held := |Visible(LastN(history, ring), clientId)|;
            var shown := Reverse(SliceFromEnd(Visible(LastN(history, ring), clientId), count));
            && |shown| == (if count == 0 || held < count then held else count)
            && shown == Reverse(LastN(Visible(history, clientId), |shown|))
  {
    var seen := Visible(LastN(history, ring), clientId);
    var mine := Visible(history, clientId);
    VisibleRingIsASuffix(history, ring, clientId);
    var length := if count == 0 || |seen| < count then |seen| else count;
    assert |seen| <= |mine|;
    LastNTwice(mine, |seen|, length);
    assert SliceFromEnd(seen, count) == LastN(seen, length);
  }

  /** The entries a caller with that identity may see: its own, or all of them without one. */
  predicate MaySee(clientId: Option<string>, e: Stamped)
  {
    clientId.None? || clientId.value == "" || e.entry.clientId == clientId
  }

  /**
   * A caller with an identity is shown exactly its own entries, each where it stood: no one
   * else's, unattributed ones included, and none of its own left out. One without sees all.
   */
  lemma NobodyElsesEntries(entries: seq<Stamped>, clientId: Option<string>) returns (positions: seq<nat>)
    ensures At(entries, Visible(entries, clientId), positions)
    ensures forall i :: 0 <= i < |entries| ==> (i in positions <==> MaySee(clientId, entries[i]))
  {
    if clientId.Some? && clientId.value != "" {
      positions := FilterPositions(entries, OfClient(clientId.value));
    } else {
      positions := seq(|entries|, i => i);
      assert forall i :: 0 <= i < |entries| ==> positions[i] == i;
    }
  }
}
