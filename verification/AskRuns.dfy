/** Questions asked at the same time: what each leaves in the one audit trail they share. */
module AskRuns {
  import opened Sequences
  import opened QueryAudit
  import Executor = QueryExecutor
  import opened Ask

  datatype Question = Question(request: AskRequest, phase: Phase)

  /** A line of the trail, and the question it belongs to. */
  datatype Written = Written(question: nat, line: Stamped)

  /** `trail` is the full history of the audit service. */
  datatype World = World(now: nat, questions: seq<Question>, trail: seq<Written>)

  datatype Step =
    | Asks(request: AskRequest)
    | GenerationEnds(question: nat, generated: Option<Generated>)
    | ExecutionEnds(question: nat, script: Executor.Script, durationMs: nat, formatterThrows: bool)
    | Tick(ms: nat)

  predicate Enabled(w: World, step: Step)
  {
    match step
    case GenerationEnds(c, _) => c < |w.questions| && w.questions[c].phase.Generating?
    case ExecutionEnds(c, _, _, _) =>
      c < |w.questions| && w.questions[c].phase.Executing? && w.questions[c].phase.generated.validation.Valid?
    case _ => true
  }

  function Tagged(c: nat, lines: seq<Stamped>): (r: seq<Written>)
  {
    seq(|lines|, i requires 0 <= i < |lines| => Written(c, lines[i]))
  }

  /** The question moves on, and what it writes on the way goes to the end of the trail. */
  function MovedOn(w: World, c: nat, phase: Phase): (r: World)
    requires c < |w.questions|
  {
    var question := w.questions[c].(phase := phase);
    w.(questions := w.questions[c := question],
       trail := w.trail + Tagged(c, Stamps(LinesSoFar(question.request, phase), w.now)))
  }

  function Next(w: World, step: Step, settings: Executor.Settings): (r: World)
    requires Enabled(w, step)
  {
    match step
    case Asks(request) => w.(questions := w.questions + [Question(request, Generating)])
    case GenerationEnds(c, generated) => MovedOn(w, c, AfterGeneration(w.questions[c].request, generated))
    case ExecutionEnds(c, script, durationMs, formatterThrows) =>
      var g := w.questions[c].phase.generated;
      MovedOn(w, c, Ended(g, Executor.Executed(script, g.validation.sql, settings, durationMs), formatterThrows))
    case Tick(ms) => w.(now := w.now + ms)
  }

  ghost predicate Run(trace: seq<World>, steps: seq<Step>, settings: Executor.Settings)
  {
    && |trace| == |steps| + 1 && trace[0] == World(0, [], [])
    && forall i :: 0 <= i < |steps| ==> Enabled(trace[i], steps[i]) && trace[i + 1] == Next(trace[i], steps[i], settings)
  }

  function OfQuestion(c: nat): Written -> bool
  {
    (w: Written) => w.question == c
  }

  function EntryOf(): Written -> AuditEntry
  {
    (w: Written) => w.line.entry
  }

  /** What a question has written, wherever in the trail it stands. */
  function OwnLines(trail: seq<Written>, c: nat): (r: seq<AuditEntry>)
  {
    Map(Filter(trail, OfQuestion(c)), EntryOf())
  }

  /** The executor only ever runs for a valid query that is no dry run. */
  predicate PhaseIsSound(question: Question)
  {
    match question.phase
    case Executing(g) => Executes(question.request, g)
    case EndedEarly(g) => !Executes(question.request, g)
    case Ended(g, _, _) => Executes(question.request, g)
    case _ => true
  }

  ghost predicate Inv(w: World)
  {
    && (forall e :: e in w.trail ==> e.question < |w.questions|)
    && (forall c :: 0 <= c < |w.questions| ==>
          PhaseIsSound(w.questions[c]) && OwnLines(w.trail, c) == LinesSoFar(w.questions[c].request, w.questions[c].phase))
  }

  lemma TaggedAreOf(c: nat, lines: seq<Stamped>, d: nat)
    ensures Filter(Tagged(c, lines), OfQuestion(d)) == if c == d then Tagged(c, lines) else []
  {
    assert forall w :: w in Tagged(c, lines) ==> w.question == c;
    if c == d {
      FilterAll(Tagged(c, lines), OfQuestion(d));
    } else {
      FilterNone(Tagged(c, lines), OfQuestion(d));
    }
  }

  lemma OwnLinesAfter(trail: seq<Written>, c: nat, lines: seq<AuditEntry>, at: nat, d: nat)
    ensures OwnLines(trail + Tagged(c, Stamps(lines, at)), d) == OwnLines(trail, d) + if c == d then lines else []
  {
    var added := Tagged(c, Stamps(lines, at));
    FilterConcat(trail, added, OfQuestion(d));
    TaggedAreOf(c, Stamps(lines, at), d);
  }

  lemma MovingOnKeeps(w: World, c: nat, phase: Phase)
    requires Inv(w) && c < |w.questions| && PhaseIsSound(w.questions[c].(phase := phase))
    requires w.questions[c].phase.Generating? || w.questions[c].phase.Executing?
    ensures Inv(MovedOn(w, c, phase))
  {
    var next := MovedOn(w, c, phase);
    var lines := LinesSoFar(w.questions[c].request, phase);
    forall d | 0 <= d < |next.questions|
      ensures OwnLines(next.trail, d) == LinesSoFar(next.questions[d].request, next.questions[d].phase)
    {
      OwnLinesAfter(w.trail, c, lines, w.now, d);
      assert OwnLines(w.trail, d) == LinesSoFar(w.questions[d].request, w.questions[d].phase);
      assert [] + lines == lines;
    }
  }

  lemma StepKeeps(w: World, step: Step, settings: Executor.Settings)
    requires Inv(w) && Enabled(w, step)
    ensures Inv(Next(w, step, settings))
  {
    match step
    case Asks(request) =>
      FilterNone(w.trail, OfQuestion(|w.questions|));
    case GenerationEnds(c, generated) =>
      MovingOnKeeps(w, c, AfterGeneration(w.questions[c].request, generated));
    case ExecutionEnds(c, script, durationMs, formatterThrows) =>
      assert PhaseIsSound(w.questions[c]);
      MovingOnKeeps(w, c, Next(w, step, settings).questions[c].phase);
    case Tick(_) =>
  }

  lemma {:induction false} RunKeeps(trace: seq<World>, steps: seq<Step>, settings: Executor.Settings, i: nat)
    requires Run(trace, steps, settings) && i < |trace|
    ensures Inv(trace[i])
  {
    if i > 0 {
      RunKeeps(trace, steps, settings, i - 1);
      StepKeeps(trace[i - 1], steps[i - 1], settings);
    }
  }

  /**
   * However questions interleave, one that is still being worked on, or whose generation
   * threw, has written nothing; one that is answered has written exactly one line, of the
   * outcome its caller is told; and only one whose formatter threw after its rows were in
   * has written two.
   */
  lemma EachQuestionHasItsLine(trace: seq<World>, steps: seq<Step>, settings: Executor.Settings, i: nat, c: nat)
    requires Run(trace, steps, settings) && i < |trace| && c < |trace[i].questions|
    ensures var q := trace[i].questions[c];
            var lines, conclusion := OwnLines(trace[i].trail, c), ConclusionSoFar(q.request, q.phase);
            var doubled := q.phase.Ended? && q.phase.execution.Returned? && q.phase.formatterThrows;
            && (conclusion.None? || q.phase.GenerationThrew? ==> lines == [])
            && (conclusion.Some? && !q.phase.GenerationThrew? ==>
                  && |lines| == (if doubled then 2 else 1)
                  && lines[|lines| - 1].outcome == OutcomeFor(conclusion.value))
            && (forall k :: 0 <= k < |lines| ==> lines[k].question == q.request.question && lines[k].clientId == q.request.clientId)
  {
    RunKeeps(trace, steps, settings, i);
    var q := trace[i].questions[c];
    match q.phase
    case EndedEarly(g) => OneLinePerQuestion(q.request, g, Executor.Escaped(Executor.DriverError(None, "")), false);
    case Ended(g, execution, formatterThrows) => OneLinePerQuestion(q.request, g, execution, formatterThrows);
    case _ =>
  }

  /** A line, once written, stays where it is, and bears the time at which it was written. */
  lemma {:induction false} TrailOnlyGrows(trace: seq<World>, steps: seq<Step>, settings: Executor.Settings, i: nat, j: nat)
    requires Run(trace, steps, settings) && i <= j < |trace|
    ensures trace[i].trail <= trace[j].trail && |trace[i].questions| <= |trace[j].questions| && trace[i].now <= trace[j].now
    ensures forall k :: |trace[i].trail| <= k < |trace[j].trail| ==> trace[i].now <= trace[j].trail[k].line.at <= trace[j].now
    decreases j
  {
    if i < j {
      TrailOnlyGrows(trace, steps, settings, i, j - 1);
    }
  }
}
