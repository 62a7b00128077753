/** The probe sessions of probe_funnel.py: four stages an axis, one question a
    stage, sessions that go on until they are closed. */
module ProbeFunnel {
  import opened Common

  datatype Axis = DecisionThreshold | RewardBias | LocusOfControl | UnlearningRate | FrictionEnergyLedger

  datatype Stage = Fact | Context | Emotion | Meaning

  const AXIS_ORDER: seq<Axis> := [DecisionThreshold, RewardBias, LocusOfControl, UnlearningRate, FrictionEnergyLedger]
  const STAGE_ORDER: seq<Stage> := [Fact, Context, Emotion, Meaning]
  const QUESTION_CAP := 5

  function Rank(s: Stage): nat {
    match s
    case Fact => 0
    case Context => 1
    case Emotion => 2
    case Meaning => 3
  }

  /** The stages before n of them. */
  function FirstStages(n: nat): set<Stage> { set s | s in {Fact, Context, Emotion, Meaning} && Rank(s) < n }

  /** A bank question; its id is spelled from its axis and stage. */
  datatype Question = Question(axis: Axis, stage: Stage)

  const BANK: seq<Question> := [
    Question(DecisionThreshold, Fact), Question(DecisionThreshold, Context),
    Question(DecisionThreshold, Emotion), Question(DecisionThreshold, Meaning),
    Question(RewardBias, Fact), Question(RewardBias, Context),
    Question(RewardBias, Emotion), Question(RewardBias, Meaning),
    Question(LocusOfControl, Fact), Question(LocusOfControl, Context),
    Question(LocusOfControl, Emotion), Question(LocusOfControl, Meaning),
    Question(UnlearningRate, Fact), Question(UnlearningRate, Context),
    Question(UnlearningRate, Emotion), Question(UnlearningRate, Meaning),
    Question(FrictionEnergyLedger, Fact), Question(FrictionEnergyLedger, Context),
    Question(FrictionEnergyLedger, Emotion), Question(FrictionEnergyLedger, Meaning)
  ]

  lemma BankAsksAll(axis: Axis, stage: Stage)
    ensures Question(axis, stage) in BANK
  {
    var a := match axis
      case DecisionThreshold => 0
      case RewardBias => 4
      case LocusOfControl => 8
      case UnlearningRate => 12
      case FrictionEnergyLedger => 16;
    assert BANK[a + Rank(stage)] == Question(axis, stage);
  }

  /** _session_id, a hash of these four. */
  datatype SessionId = SessionId(today: int, axis: Axis, stage: Stage, count: nat)

  datatype Session = Session(id: SessionId, date: int, stage: Stage, axis: Axis, asked: seq<Question>,
                             nodes: seq<int>, active: bool)

  datatype Node = Node(id: int, trusted: bool, superseded: bool)

  datatype Answer = Answer(session: SessionId, question: Question, stage: Stage, node: int)

  /** The stages of an axis that have an answer. */
  ghost function Done(answers: seq<Answer>, axis: Axis): set<Stage> {
    if answers == [] then {}
    else
      var a := answers[|answers| - 1];
      Done(answers[..|answers| - 1], axis) + if a.session.axis == axis then {a.stage} else {}
  }

  /** select_probe_question: the bank has one question an axis and stage. */
  method SelectProbeQuestion(s: Session) returns (q: Question)
    ensures q == Question(s.axis, s.stage)
  {
    var eligible, unused: seq<Question> := [], [];
    for i := 0 to |BANK|
      invariant forall x :: x in eligible || x in unused ==> x == Question(s.axis, s.stage)
      invariant Question(s.axis, s.stage) in BANK[..i] ==> eligible != []
    {
      var x := BANK[i];
      if x.axis == s.axis && x.stage == s.stage {
        eligible := eligible + [x];
        if x !in s.asked { unused := unused + [x]; }
      }
    }
    BankAsksAll(s.axis, s.stage);
    assert BANK[..|BANK|] == BANK;
    if unused != [] {
      assert unused[0] in unused;
      return unused[0];
    }
    assert eligible[0] in eligible;
    return eligible[0];
  }

  /** _next_stage. */
  function NextStage(s: Stage): (r: Maybe<Stage>)
    ensures r.Nothing? <==> s == Meaning
    ensures r.Just? ==> Rank(r.value) == Rank(s) + 1
  {
    match s
    case Fact => Just(Context)
    case Context => Just(Emotion)
    case Emotion => Just(Meaning)
    case Meaning => Nothing
  }

  /** A session against the completed stages of its axis: an active one is at the
      first missing stage, or repeats the last one; a closed one has left none. */
  ghost predicate InStep(s: Session, done: set<Stage>) {
    if s.active then
      && |s.asked| <= Rank(s.stage)
      && (done == FirstStages(Rank(s.stage)) || (s.stage == Meaning && done == FirstStages(4)))
    else |s.asked| <= 4 && done == FirstStages(4)
  }

  ghost predicate ActiveAt(sessions: seq<Session>, i: int) { 0 <= i < |sessions| && sessions[i].active }

  ghost predicate NoneActive(sessions: seq<Session>) { forall i :: 0 <= i < |sessions| ==> !ActiveAt(sessions, i) }

  /** The answer's session and node exist. */
  ghost predicate Recorded(sessions: seq<Session>, nodes: seq<Node>, a: Answer) {
    && a.session.count < |sessions| && sessions[a.session.count].id == a.session
    && HasNode(nodes, a.node)
  }

  ghost predicate HasNode(nodes: seq<Node>, id: int) { exists i :: 0 <= i < |nodes| && nodes[i].id == id }

  ghost predicate SessionOk(sessions: seq<Session>, answers: seq<Answer>, i: nat)
    requires i < |sessions|
  {
    var s := sessions[i];
    s.id.count == i && s.id.axis == s.axis && InStep(s, Done(answers, s.axis))
  }

  ghost predicate Prefix(done: set<Stage>) { exists n :: 0 <= n <= 4 && done == FirstStages(n) }

  /** Every session is in step with its axis, the completed stages of every axis
      are a prefix, and at most one session is active. */
  ghost predicate StoreOk(sessions: seq<Session>, nodes: seq<Node>, answers: seq<Answer>) {
    && (forall i :: 0 <= i < |sessions| ==> SessionOk(sessions, answers, i))
    && (forall i, j :: ActiveAt(sessions, i) && ActiveAt(sessions, j) ==> i == j)
    && (forall i :: 0 <= i < |nodes| ==> nodes[i].trusted && !nodes[i].superseded)
    && (forall a :: a in answers ==> Recorded(sessions, nodes, a))
    && (forall axis :: Prefix(Done(answers, axis)))
  }

  lemma StartKeeps(sessions: seq<Session>, nodes: seq<Node>, answers: seq<Answer>, s: Session)
    requires StoreOk(sessions, nodes, answers) && NoneActive(sessions)
    requires s.id.count == |sessions| && s.id.axis == s.axis && InStep(s, Done(answers, s.axis))
    ensures StoreOk(sessions + [s], nodes, answers)
  {
    hide InStep, Done, Prefix;
    var more := sessions + [s];
    forall i | 0 <= i < |more| ensures SessionOk(more, answers, i) {
      if i < |sessions| { assert SessionOk(sessions, answers, i); }
    }
    forall i | ActiveAt(more, i) ensures i == |sessions| {
      assert !ActiveAt(sessions, i);
    }
    forall a | a in answers ensures Recorded(more, nodes, a) {
      assert Recorded(sessions, nodes, a);
    }
  }

  /** The session after its question was answered. */
  function Advanced(s: Session, question: Question, node: int): Session {
    s.(asked := s.asked + [question], nodes := s.nodes + [node],
       active := NextStage(s.stage).Just?,
       stage := if NextStage(s.stage).Just? then NextStage(s.stage).value else s.stage)
  }

  lemma DoneMore(answers: seq<Answer>, a: Answer, axis: Axis)
    ensures Done(answers + [a], axis) == Done(answers, axis) + if a.session.axis == axis then {a.stage} else {}
  {
    assert (answers + [a])[..|answers|] == answers;
  }

  /** Answering the question of the active session keeps everything in step. */
  lemma AnswerKeeps(sessions: seq<Session>, nodes: seq<Node>, answers: seq<Answer>, i: nat, question: Question,
                    node: int)
    requires StoreOk(sessions, nodes, answers) && ActiveAt(sessions, i)
    ensures StoreOk(sessions[i := Advanced(sessions[i], question, node)], nodes + [Node(node, true, false)],
                    answers + [Answer(sessions[i].id, question, sessions[i].stage, node)])
  {
    var s := sessions[i];
    var a := Answer(s.id, question, s.stage, node);
    var later, newer, longer := sessions[i := Advanced(s, question, node)], nodes + [Node(node, true, false)],
        answers + [a];
    assert SessionOk(sessions, answers, i);
    forall axis ensures Prefix(Done(longer, axis)) {
      DoneMore(answers, a, axis);
      assert Prefix(Done(answers, axis));
      if axis == s.axis {
        StageDone(s.stage);
        assert Done(longer, axis) == FirstStages(Rank(s.stage) + 1) || Done(longer, axis) == FirstStages(4);
      } else {
        assert Done(longer, axis) == Done(answers, axis);
      }
    }
    forall j | 0 <= j < |later| ensures SessionOk(later, longer, j) {
      assert SessionOk(sessions, answers, j);
      DoneMore(answers, a, later[j].axis);
      StageDone(s.stage);
      if j != i { assert !ActiveAt(sessions, j); }
    }
    hide SessionOk, Done, Prefix, InStep;
    forall j | ActiveAt(later, j) ensures ActiveAt(sessions, j) {}
    forall x | x in longer ensures Recorded(later, newer, x) {
      if x == a {
        assert s.id.count == i && newer[|nodes|].id == node;
      } else {
        assert Recorded(sessions, nodes, x);
        var p :| 0 <= p < |nodes| && nodes[p].id == x.node;
        assert newer[p].id == x.node;
      }
    }
  }

  lemma StageDone(s: Stage)
    ensures FirstStages(Rank(s)) + {s} == FirstStages(Rank(s) + 1)
    ensures s in FirstStages(4) && FirstStages(4) + {s} == FirstStages(4)
  {
  }

  class Store {
    var sessions: seq<Session>
    var nodes: seq<Node>
    var answers: seq<Answer>

    ghost predicate Valid()
      reads this
    {
      StoreOk(sessions, nodes, answers)
    }

    constructor ()
      ensures Valid() && sessions == [] && answers == []
    {
      sessions, nodes, answers := [], [], [];
      new;
      forall axis ensures Prefix(Done(answers, axis)) { assert Done(answers, axis) == FirstStages(0); }
    }

    /** _node_index: the last node of an id. */
    method NodeOf(id: int) returns (node: Maybe<Node>)
      ensures node.Nothing? <==> forall i :: 0 <= i < |nodes| ==> nodes[i].id != id
      ensures node.Just? ==> node.value in nodes && node.value.id == id
    {
      node := Nothing;
      for i := 0 to |nodes|
        invariant node.Nothing? <==> forall j :: 0 <= j < i ==> nodes[j].id != id
        invariant node.Just? ==> node.value in nodes && node.value.id == id
      {
        if nodes[i].id == id { node := Just(nodes[i]); }
      }
    }

    method SessionOf(id: SessionId) returns (index: Maybe<nat>)
      ensures index.Nothing? <==> forall i :: 0 <= i < |sessions| ==> sessions[i].id != id
      ensures index.Just? ==> index.value < |sessions| && sessions[index.value].id == id
    {
      for i := 0 to |sessions|
        invariant forall j :: 0 <= j < i ==> sessions[j].id != id
      {
        if sessions[i].id == id { return Just(i); }
      }
      return Nothing;
    }

    /** _completed_stages. */
    method CompletedStages(axis: Axis) returns (completed: set<Stage>)
      requires Valid()
      ensures completed == Done(answers, axis)
    {
      completed := {};
      for i := 0 to |answers|
        invariant completed == Done(answers[..i], axis)
      {
        assert answers[..i + 1][..i] == answers[..i];
        var answer := answers[i];
        assert answer in answers && Recorded(sessions, nodes, answer);
        var session := SessionOf(answer.session);
        assert session.Just? && SessionOk(sessions, answers, session.value);
        if session.Nothing? || sessions[session.value].axis != axis { continue; }
        var node := NodeOf(answer.node);
        if node.Just? && node.value.trusted && !node.value.superseded {
          completed := completed + {answer.stage};
        }
      }
      assert answers[..|answers|] == answers;
    }

    /** _candidate_stage: the first stage that is not completed. */
    method CandidateStage(axis: Axis) returns (stage: Stage)
      requires Valid()
      ensures Done(answers, axis) == FirstStages(Rank(stage))
              || (stage == Meaning && Done(answers, axis) == FirstStages(4))
    {
      var completed := CompletedStages(axis);
      assert Prefix(Done(answers, axis));
      ghost var n :| 0 <= n <= 4 && Done(answers, axis) == FirstStages(n);
      for i := 0 to |STAGE_ORDER|
        invariant forall j :: 0 <= j < i ==> STAGE_ORDER[j] in completed
      {
        if STAGE_ORDER[i] !in completed {
          PrefixStops(n, i);
          return STAGE_ORDER[i];
        }
      }
      assert STAGE_ORDER[3] in completed;
      return Meaning;
    }

    /** find_active_session. */
    method FindActiveSession(axis: Axis) returns (index: Maybe<nat>)
      ensures index.Just? ==> ActiveAt(sessions, index.value) && sessions[index.value].axis == axis
      ensures index.Nothing? ==> forall i :: ActiveAt(sessions, i) ==> sessions[i].axis != axis
    {
      for i := 0 to |sessions|
        invariant forall j :: 0 <= j < i ==> !(sessions[j].axis == axis && sessions[j].active)
      {
        if sessions[i].axis == axis && sessions[i].active { return Just(i); }
      }
      return Nothing;
    }

    /** find_session_for_today. */
    method FindSessionForToday(axis: Axis, today: int) returns (index: Maybe<nat>)
      ensures index.Just? ==>
              index.value < |sessions| && sessions[index.value].axis == axis && sessions[index.value].date == today
      ensures index.Nothing? ==> forall i :: 0 <= i < |sessions| ==>
              !(sessions[i].axis == axis && sessions[i].date == today)
    {
      for i := 0 to |sessions|
        invariant forall j :: 0 <= j < i ==> !(sessions[j].axis == axis && sessions[j].date == today)
      {
        if sessions[i].axis == axis && sessions[i].date == today { return Just(i); }
      }
      return Nothing;
    }

    /** start_session, when there is none of the axis today and none is active. */
    method StartSession(axis: Axis, stage: Stage, today: int)
      requires Valid() && NoneActive(sessions)
      requires Done(answers, axis) == FirstStages(Rank(stage))
               || (stage == Meaning && Done(answers, axis) == FirstStages(4))
      modifies `sessions
      ensures Valid()
      ensures sessions == old(sessions)
              + [Session(SessionId(today, axis, stage, |old(sessions)|), today, stage, axis, [], [], true)]
    {
      var session := Session(SessionId(today, axis, stage, |sessions|), today, stage, axis, [], [], true);
      StartKeeps(sessions, nodes, answers, session);
      sessions := sessions + [session];
    }

    /** probe_next_question, with the axis of the highest priority as an input. It
        asks the active session's question, opening a session when none is active,
        and fails exactly when none is active and the axis had its session today. */
    method ProbeNextQuestion(best: Axis, today: int) returns (r: Maybe<(SessionId, Question)>)
      requires Valid()
      modifies `sessions
      ensures Valid()
      ensures r.Nothing? <==> NoneActive(old(sessions))
                              && exists i :: 0 <= i < |old(sessions)| && old(sessions)[i].axis == best
                                   && old(sessions)[i].date == today
      ensures r.Nothing? || !NoneActive(old(sessions)) ==> sessions == old(sessions)
      ensures r.Just? ==> exists i ::
                ActiveAt(sessions, i) && r.value == (sessions[i].id, Question(sessions[i].axis, sessions[i].stage))
      ensures r.Just? && NoneActive(old(sessions)) ==>
                exists stage :: sessions ==
                    old(sessions) + [Session(SessionId(today, best, stage, |old(sessions)|), today, stage, best, [],
                                             [], true)]
    {
      for k := 0 to |AXIS_ORDER|
        invariant sessions == old(sessions)
        invariant forall i :: ActiveAt(sessions, i) ==> sessions[i].axis !in AXIS_ORDER[..k]
      {
        var active := FindActiveSession(AXIS_ORDER[k]);
        if active.Just? {
          var q := SelectProbeQuestion(sessions[active.value]);
          return Just((sessions[active.value].id, q));
        }
      }
      forall i | 0 <= i < |sessions| ensures !ActiveAt(sessions, i) { AllAxes(sessions[i].axis); }
      var stage := CandidateStage(best);
      var existing := FindSessionForToday(best, today);
      if existing.Just? { return Nothing; }
      hide StoreOk;
      StartSession(best, stage, today);
      var index := |sessions| - 1;
      var q := SelectProbeQuestion(sessions[index]);
      assert ActiveAt(sessions, index);
      return Just((sessions[index].id, q));
    }

    /** record_probe_answer: accepted exactly for the one question of an active
        session's stage. The cap of five questions never rejects anything. */
    method RecordProbeAnswer(id: SessionId, question: Question, nodeId: int) returns (ok: bool)
      requires Valid()
      modifies this
      ensures Valid()
      ensures ok <==> exists i :: ActiveAt(old(sessions), i) && old(sessions)[i].id == id
                                  && question == Question(old(sessions)[i].axis, old(sessions)[i].stage)
      ensures !ok ==> sessions == old(sessions) && nodes == old(nodes) && answers == old(answers)
      ensures ok ==>
                && id.count < |old(sessions)|
                && sessions == old(sessions)[id.count := Advanced(old(sessions)[id.count], question, nodeId)]
                && answers == old(answers) + [Answer(id, question, old(sessions)[id.count].stage, nodeId)]
                && nodes == old(nodes) + [Node(nodeId, true, false)]
      ensures ok ==>
                && |sessions| == |old(sessions)|
                && var before, after := old(sessions)[id.count], sessions[id.count];
                   && after.asked == before.asked + [question] && after.nodes == before.nodes + [nodeId]
                   && after.active == (before.stage != Meaning)
                   && (before.stage == Fact ==> after.stage == Context)
                   && (before.stage == Context ==> after.stage == Emotion)
                   && (before.stage == Emotion || before.stage == Meaning ==> after.stage == Meaning)
                   && after.id == before.id && after.date == before.date && after.axis == before.axis
    {
      var found := SessionOf(id);
      if found.Nothing? { return false; }
      var i := found.value;
      var session := sessions[i];
      assert SessionOk(sessions, answers, i);
      OneOfId(sessions, answers, i);
      if !session.active { return false; }
      if |session.asked| >= QUESTION_CAP { return false; }
      var expected := SelectProbeQuestion(session);
      if question != expected { return false; }
      assert ActiveAt(sessions, i);
      AnswerKeeps(sessions, nodes, answers, i, question, nodeId);
      hide StoreOk, SessionOk;
      nodes := nodes + [Node(nodeId, true, false)];
      answers := answers + [Answer(session.id, question, session.stage, nodeId)];
      var next := NextStage(session.stage);
      var asked, made := session.asked + [question], session.nodes + [nodeId];
      if next.Nothing? {
        sessions := sessions[i := session.(asked := asked, nodes := made, active := false)];
      } else {
        sessions := sessions[i := session.(asked := asked, nodes := made, stage := next.value)];
      }
      ok := true;
    }

    /** What holds in every run: one active session at most, completed stages a
        prefix, a closed session only on a complete axis, and never five questions. */
    lemma EveryRun()
      requires Valid()
      ensures forall i, j :: ActiveAt(sessions, i) && ActiveAt(sessions, j) ==> i == j
      ensures forall axis, s, t :: s in Done(answers, axis) && Rank(t) < Rank(s) ==> t in Done(answers, axis)
      ensures forall i :: 0 <= i < |sessions| && !sessions[i].active ==>
              Done(answers, sessions[i].axis) == {Fact, Context, Emotion, Meaning}
      ensures forall i :: 0 <= i < |sessions| ==> |sessions[i].asked| < QUESTION_CAP
      ensures forall axis :: var done := Done(answers, axis);
              (Context in done ==> Fact in done) && (Emotion in done ==> Context in done)
              && (Meaning in done ==> Emotion in done)
      ensures forall i :: ActiveAt(sessions, i) ==>
                var done, stage := Done(answers, sessions[i].axis), sessions[i].stage;
                && (stage != Meaning ==> stage !in done)
                && (stage == Context ==> Fact in done) && (stage == Emotion ==> Context in done)
                && (stage == Meaning ==> Emotion in done)
    {
      forall i | ActiveAt(sessions, i)
        ensures var done, stage := Done(answers, sessions[i].axis), sessions[i].stage;
                && (stage != Meaning ==> stage !in done)
                && (stage == Context ==> Fact in done) && (stage == Emotion ==> Context in done)
                && (stage == Meaning ==> Emotion in done)
      {
        assert SessionOk(sessions, answers, i);
      }
      forall axis ensures var done := Done(answers, axis);
              (Context in done ==> Fact in done) && (Emotion in done ==> Context in done)
              && (Meaning in done ==> Emotion in done)
      {
        assert Prefix(Done(answers, axis));
      }
      forall axis, s, t | s in Done(answers, axis) && Rank(t) < Rank(s) ensures t in Done(answers, axis) {
        assert Prefix(Done(answers, axis));
      }
      forall i | 0 <= i < |sessions|
        ensures |sessions[i].asked| < QUESTION_CAP
        ensures !sessions[i].active ==> Done(answers, sessions[i].axis) == {Fact, Context, Emotion, Meaning}
      {
        assert SessionOk(sessions, answers, i);
        assert FirstStages(4) == {Fact, Context, Emotion, Meaning};
      }
    }
  }

  lemma OneOfId(sessions: seq<Session>, answers: seq<Answer>, i: nat)
    requires i < |sessions| && forall j :: 0 <= j < |sessions| ==> SessionOk(sessions, answers, j)
    ensures forall j :: 0 <= j < |sessions| && sessions[j].id == sessions[i].id ==> j == i
    ensures sessions[i].id.count == i
  {
    assert SessionOk(sessions, answers, i);
    forall j | 0 <= j < |sessions| && sessions[j].id == sessions[i].id ensures j == i {
      assert SessionOk(sessions, answers, j);
    }
  }

  lemma PrefixStops(n: nat, i: nat)
    requires n <= 4 && i < 4 && STAGE_ORDER[i] !in FirstStages(n) && forall j :: 0 <= j < i ==>
             STAGE_ORDER[j] in FirstStages(n)
    ensures FirstStages(n) == FirstStages(Rank(STAGE_ORDER[i]))
  {
    assert Rank(STAGE_ORDER[i]) == i;
    if i > 0 { assert STAGE_ORDER[i - 1] in FirstStages(n); }
  }

  lemma AllAxes(axis: Axis)
    ensures axis in AXIS_ORDER[..|AXIS_ORDER|]
  {
    var a := match axis
      case DecisionThreshold => 0
      case RewardBias => 1
      case LocusOfControl => 2
      case UnlearningRate => 3
      case FrictionEnergyLedger => 4;
    assert AXIS_ORDER[a] == axis;
    assert AXIS_ORDER[..|AXIS_ORDER|] == AXIS_ORDER;
  }
}
