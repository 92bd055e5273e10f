/**
  The orchestrator over its adapters: the life of one story from submission to its end.

  What components answer is arbitrary: `world(n)` is the answer to the n-th question asked in a
  run, and the results hold for every such function, every choice of attached components and
  every transition table. A raised Python exception is an out-parameter `raised`.
*/
module Orchestration {
  import opened Options
  import opened StoryLifecycle
  import opened Convergence
  import AG = ApprovalGates
  import Retries

  datatype Change = Change(path: string, hasContent: bool)

  datatype Iteration = Iteration(
    number: nat, coding: bool, changes: seq<Change>,
    approved: Option<bool>,      // the review, if any
    failedTests: Option<int>,    // the test report, if any
    deployed: Option<bool>,      // the deploy report, if any
    error: Option<ErrorContext>)

  /** The fields of the iteration record, which refuses the assignment of any other. */
  const ITERATION_FIELDS := {
    "number", "started_at", "ended_at", "stage", "changes", "test_results", "review_results", "deploy_results",
    "error_context", "model_calls"}

  /** One answer of the outside world; each question reads the fields it needs. */
  datatype Answer = Answer(
    raises: bool,
    tasks: nat,                  // of a new plan
    changes: seq<Change>,        // generated code or tests
    approved: bool,
    failedTests: int,
    fingerprint: string,
    passed: bool,                // a scan, a quality evaluation, a deployment
    callbackOps: seq<AG.Op>)     // what registered callbacks do to the approval gates

  /** Which optional components are attached. */
  datatype Components = Components(
    analyzer: bool, planner: bool, generator: bool, reviewer: bool, testGenerator: bool, testRunner: bool,
    classifier: bool, memoryStore: bool, scanner: bool, postMortem: bool, qualityEngine: bool,
    deployer: bool, verifier: bool)

  const NO_COMPONENTS := Components(false, false, false, false, false, false, false, false, false, false, false,
                                    false, false)

  const ALL_COMPONENTS := Components(true, true, true, true, true, true, true, true, true, true, true, true, true)

  // ---- the log of a run ------------------------------------------------------------------------------

  datatype Event =
    | ConvergenceChecked(verdict: Verdict)
    | Escalated
    | Replanned
    | CodeGenerated(error: Option<ErrorContext>)
    | GateChecked(status: AG.Status, open: bool)  // open: disabled, or the latest decision approves
    | DeployerCalled
    | ChecksActed  // the quality gates have moved the story

  /** An undisturbed pass of the coding loop: convergence is fine, and no error context is handed on. */
  predicate IsQuiet(e: Event) {
    match e
    case ConvergenceChecked(v) => v == Progressing
    case CodeGenerated(error) => error == None
    case ChecksActed => true
    case _ => false
  }

  /** No quality gate has moved the story. */
  ghost predicate NoneActed(log: seq<Event>) {
    forall i :: 0 <= i < |log| ==> !log[i].ChecksActed?
  }

  ghost predicate OnlyQuiet(before: seq<Event>, after: seq<Event>) {
    before <= after && forall i :: |before| <= i < |after| ==> IsQuiet(after[i])
  }

  lemma QuietChain(a: seq<Event>, b: seq<Event>, c: seq<Event>)
    requires OnlyQuiet(a, b) && OnlyQuiet(b, c)
    ensures OnlyQuiet(a, c)
  {
    forall i | |a| <= i < |c|
      ensures IsQuiet(c[i])
    {
      if i < |b| {
        assert b[i] == c[i];
      }
    }
  }

  /** The most recent gate check. */
  function LastGate(log: seq<Event>): Option<Event> {
    if log == [] then None
    else if log[|log| - 1].GateChecked? then Some(log[|log| - 1])
    else LastGate(log[..|log| - 1])
  }

  /** How often the coding loop was entered: each pass starts with a check of convergence. */
  function Passes(log: seq<Event>): nat {
    if log == [] then 0 else Passes(log[..|log| - 1]) + if log[|log| - 1].ConvergenceChecked? then 1 else 0
  }

  lemma PassesSnoc(log: seq<Event>, e: Event)
    ensures Passes(log + [e]) == Passes(log) + if e.ConvergenceChecked? then 1 else 0
  {
    assert (log + [e])[..|log|] == log;
  }

  /** Every call of the deployer comes after a gate check that passed, on a gate open at that time. */
  ghost predicate Gated(log: seq<Event>) {
    forall i :: 0 <= i < |log| && log[i].DeployerCalled? ==> LastGate(log[..i]) == Some(GateChecked(AG.Pass, true))
  }

  // ---- the story --------------------------------------------------------------------------------------

  class Story {
    const id: string
    const costBudget: real
    var state: State
    var hasSpec: bool
    var planTasks: Option<nat>
    var iterations: seq<Iteration>
    var totalCost: real

    constructor (id: string, costBudget: real)
      ensures this.id == id && this.costBudget == costBudget
      ensures IsNew() && totalCost == 0.0
    {
      this.id, this.costBudget := id, costBudget;
      state, hasSpec, planTasks, iterations, totalCost := Received, false, None, [], 0.0;
    }

    /** The state after construction. */
    predicate IsNew()
      reads this
    {
      state == Received && !hasSpec && planTasks == None && iterations == []
    }

    function Errors(): Convergence.Errors
      reads this`iterations
    {
      var its := iterations;
      seq(|its|, i requires 0 <= i < |its| => its[i].error)
    }

    /** No iteration carries an error context. */
    ghost predicate Clean()
      reads this`iterations
    {
      forall i :: 0 <= i < |iterations| ==> iterations[i].error == None
    }

    /** The review of the last iteration, if any, approves, and its test report, if any, has no failure. */
    predicate LastIterationGood()
      reads this`iterations
    {
      iterations != [] ==>
        var last := iterations[|iterations| - 1];
        last.approved != Some(false) && (last.failedTests.Some? ==> last.failedTests.value <= 0)
    }
  }

  /** The iterations agree except that fields of the last one other than its error may differ. */
  ghost predicate LastUpdated(before: seq<Iteration>, after: seq<Iteration>) {
    && |before| == |after|
    && (forall i :: 0 <= i < |before| - 1 ==> after[i] == before[i])
    && (before != [] ==> after[|after| - 1].error == before[|before| - 1].error)
  }

  // ---- the orchestrator -----------------------------------------------------------------------------

  /** How one pass of the coding loop ends. */
  datatype PassEnd = Retry | Leave | Finished

  class Orchestrator {
    const table: Table
    const maxIterations: int
    const components: Components
    const world: nat -> Answer
    const checks: nat -> Answer  // what the scanner, the quality engine and the post-mortem engine answer
    const gates: AG.ApprovalGateManager
    const retries: Retries.RetryPolicy
    var asked: nat             // questions asked so far
    var checked: nat           // of these, questions asked in scans and quality gates, counted on their own
    ghost var log: seq<Event>  // what the current run has done

    ghost predicate Ready()
      reads gates, retries
    {
      gates.Valid() && retries.Valid()
    }

    constructor (table: Table, maxIterations: int, components: Components, world: nat -> Answer, checks: nat -> Answer,
                 gates: AG.ApprovalGateManager, retries: Retries.RetryPolicy)
      requires gates.Valid() && retries.Valid()
      ensures Ready() && this.table == table && this.maxIterations == maxIterations && this.components == components
      ensures this.world == world && this.checks == checks && this.gates == gates && this.retries == retries
              && log == []
    {
      this.table, this.maxIterations, this.components := table, maxIterations, components;
      this.world, this.checks, this.gates, this.retries := world, checks, gates, retries;
      asked, checked, log := 0, 0, [];
    }

    /** A component is attached that is asked before deployment, and not only after failing tests. */
    predicate Asking() {
      && components.(classifier := false, memoryStore := false, scanner := false, postMortem := false,
                     qualityEngine := false, deployer := false, verifier := false) != NO_COMPONENTS
    }

    /**
      The components attached before deployment answer well, and one pass of the loop is allowed:
      none of them raises, plans have tasks, reviews approve, test reports have no failure, and a
      quality evaluation passes where it counts, which is on a story that no generator works on.
    */
    ghost predicate Helpful() {
      && maxIterations >= 1
      && forall n :: Helps(world(n)) && (components.qualityEngine && !components.generator ==>
                                           checks(n).raises || checks(n).passed)
    }

    /** An answer that no attached component stumbles over. */
    predicate Helps(a: Answer) {
      && (Asking() ==> !a.raises)
      && (components.generator ==> a.tasks > 0)
      && (components.reviewer ==> a.approved)
      && (components.testRunner ==> a.failedTests <= 0)
    }

    /** What the components need of each other: a plan is made from a spec, and code from a plan. */
    predicate Wired() {
      (components.planner ==> components.analyzer) && (components.generator ==> components.planner)
    }

    /** Callbacks leave the approval gates alone. */
    ghost predicate Silent() {
      forall n :: world(n).callbackOps == []
    }

    /** A deployer, if attached, never raises; what its reports say is open. */
    ghost predicate DeploysThrough() {
      components.deployer ==> forall n :: !world(n).raises
    }

    /** With a generator attached, no quality gate has moved the story. */
    ghost predicate Unmoved(log: seq<Event>) {
      components.generator ==> NoneActed(log)
    }

    /**
      What stands behind a story that is DONE: the gate passed, and then the deployer was called if
      there is one; or the gate was pending, and the table lets a story skip deployment.
    */
    ghost predicate Delivered(log: seq<Event>) {
      || (LastGate(log) == Some(GateChecked(AG.Pass, true)) && table(Verifying, Verifying)
          && (components.deployer ==> log[|log| - 1] == DeployerCalled))
      || (LastGate(log) == Some(GateChecked(AG.Pending, false)) && table(Testing, Verifying))
    }

    /** The transitions that a story makes on its way to DONE, three of them from a state to itself. */
    predicate PathOpen() {
      && DevelopOpen()
      && table(Testing, Deploying) && table(Deploying, Verifying)
      && table(Verifying, Verifying) && table(Verifying, Done)
    }

    /** The transitions of a story whose pending deployment is skipped. */
    predicate SkipOpen() {
      DevelopOpen() && table(Testing, Verifying) && table(Verifying, Done)
    }

    /** The deploy gate is disabled, or approved for good. */
    ghost predicate StaysOpen(id: string)
      reads gates
    {
      GateOpen(id) && (gates.IsEnabled("pre_deploy") ==> Silent())
    }

    /** The way to testing. */
    predicate DevelopOpen() {
      && table(Received, Analyzing) && table(Analyzing, Planning)
      && table(Planning, Planning) && table(Planning, Coding)
      && CodingOpen()
    }

    predicate CodingOpen() {
      table(Coding, Reviewing) && table(Reviewing, Testing) && table(Testing, Testing)
    }

    method Ask() returns (a: Answer)
      modifies this`asked
      ensures a == world(old(asked)) && asked == old(asked) + 1
    {
      a := world(asked);
      asked := asked + 1;
    }

    method AskCheck() returns (a: Answer)
      modifies this`checked
      ensures a == checks(old(checked)) && checked == old(checked) + 1
    {
      a := checks(checked);
      checked := checked + 1;
    }

    /** Callbacks may approve, reject and clear; their own exceptions are swallowed. */
    method EmitEvent()
      requires Ready()
      modifies this`asked, gates
      ensures Ready() && asked == old(asked) + 1
      ensures gates.history == old(gates.history) + world(old(asked)).callbackOps
      ensures gates.Now() == AG.ApplyAll(old(gates.Now()), world(old(asked)).callbackOps)
      ensures Silent() ==> gates.history == old(gates.history)
    {
      var a := Ask();
      gates.Perform(a.callbackOps);
    }

    method Transition(story: Story, target: State) returns (raised: bool)
      modifies story`state
      ensures raised <==> !table(old(story.state), target)
      ensures story.state == if raised then old(story.state) else target
    {
      if !table(story.state, target) {
        return true;
      }
      story.state := target;
      return false;
    }

    /** How a stage ends: an exception in it fails the story, or leaves the stage if the table forbids that. */
    method FailIfThrown(story: Story, thrown: bool) returns (raised: bool)
      requires Ready()
      modifies this`asked, gates, story`state
      ensures Ready() && (raised <==> thrown && !table(old(story.state), Failed))
      ensures story.state == if thrown && !raised then Failed else old(story.state)
      ensures Silent() ==> gates.history == old(gates.history)
    {
      raised := false;
      if thrown {
        raised := Transition(story, Failed);
        if raised {
          return;
        }
      }
      EmitEvent();
    }

    // ---- analysis and planning ----

    method RunAnalysis(story: Story) returns (raised: bool)
      requires Ready()
      modifies this`asked, gates, story`state, story`hasSpec
      ensures Ready()
      ensures !raised ==> story.state == Planning || story.state == Failed
      ensures raised ==> story.state == if table(old(story.state), Analyzing) then Analyzing else old(story.state)
      ensures !raised && story.state == Planning <==>
              table(old(story.state), Analyzing) && table(Analyzing, Planning)
              && (components.analyzer ==> !world(old(asked) + 1).raises)
      ensures !raised && story.state == Failed <==>
              table(old(story.state), Analyzing) && table(Analyzing, Failed)
              && (table(Analyzing, Planning) ==> components.analyzer && world(old(asked) + 1).raises)
      ensures story.hasSpec <==>
              old(story.hasSpec)
              || (table(old(story.state), Analyzing) && components.analyzer && !world(old(asked) + 1).raises)
      ensures Silent() ==> gates.history == old(gates.history)
    {
      raised := Transition(story, Analyzing);
      if raised {
        return;
      }
      EmitEvent();
      var thrown := false;
      if components.analyzer {
        var a := Ask();
        thrown := a.raises;
        if !thrown {
          story.hasSpec := true;
        }
      }
      if !thrown {
        thrown := Transition(story, Planning);
      }
      raised := FailIfThrown(story, thrown);
    }

    method RunPlanning(story: Story) returns (raised: bool)
      requires Ready()
      modifies this`asked, gates, story`state, story`planTasks
      ensures Ready()
      ensures !raised ==> story.state == Coding || story.state == Failed
      ensures raised ==> story.state == if table(old(story.state), Planning) then Planning else old(story.state)
      ensures !raised && story.state == Coding <==>
              table(old(story.state), Planning) && table(Planning, Coding)
              && (components.planner ==> story.hasSpec && !world(old(asked) + 1).raises)
      ensures !raised && story.state == Failed <==>
              table(old(story.state), Planning) && table(Planning, Failed)
              && (table(Planning, Coding) ==>
                    components.planner && (!story.hasSpec || world(old(asked) + 1).raises))
      ensures story.planTasks ==
              if table(old(story.state), Planning) && components.planner && story.hasSpec
                 && !world(old(asked) + 1).raises
              then Some(world(old(asked) + 1).tasks) else old(story.planTasks)
      ensures Silent() ==> gates.history == old(gates.history)
    {
      raised := Transition(story, Planning);
      if raised {
        return;
      }
      EmitEvent();
      var thrown := false;
      if components.planner {
        var a := Ask();
        thrown := !story.hasSpec || a.raises;
        if !thrown {
          story.planTasks := Some(a.tasks);
        }
      }
      if !thrown {
        thrown := Transition(story, Coding);
      }
      raised := FailIfThrown(story, thrown);
    }

    // ---- coding ----

    function HasTasks(story: Story): bool
      reads story`planTasks
    {
      story.planTasks.Some? && story.planTasks.value > 0
    }

    /** The generator adapter: one new iteration, or an exception. */
    method Generate(story: Story, error: Option<ErrorContext>) returns (raised: bool)
      modifies this`asked, this`log, story`iterations
      ensures log == old(log) + [CodeGenerated(error)]
      ensures raised <==> !HasTasks(story) || world(old(asked)).raises
      ensures if raised then story.iterations == old(story.iterations)
              else |story.iterations| == |old(story.iterations)| + 1
                   && story.iterations[..|old(story.iterations)|] == old(story.iterations)
                   && var new_ := story.iterations[|story.iterations| - 1];
                      new_.error == error && new_.approved == None && new_.failedTests == None && new_.deployed == None
                      && new_.coding && new_.number == |story.iterations| && new_.changes == world(old(asked)).changes
      ensures Passes(log) == Passes(old(log))
    {
      PassesSnoc(log, CodeGenerated(error));
      log := log + [CodeGenerated(error)];
      var a := Ask();
      if !HasTasks(story) || a.raises {
        return true;
      }
      story.iterations := story.iterations +
        [Iteration(|story.iterations| + 1, true, a.changes, None, None, None, error)];
      return false;
    }

    function CodingAttempts(iterations: seq<Iteration>): nat {
      if iterations == [] then 0
      else CodingAttempts(iterations[..|iterations| - 1]) + if iterations[|iterations| - 1].coding then 1 else 0
    }

    lemma {:induction false} SomeAttempt(iterations: seq<Iteration>)
      ensures CodingAttempts(iterations) > 0 <==> exists i :: 0 <= i < |iterations| && iterations[i].coding
    {
      if iterations == [] {
      } else {
        var n := |iterations| - 1;
        SomeAttempt(iterations[..n]);
        assert forall i :: 0 <= i < n ==> iterations[..n][i] == iterations[i];
      }
    }

    /** The error context handed to the generator: that of the last iteration, from the second attempt on. */
    function HandedOn(story: Story): (error: Option<ErrorContext>)
      reads story
      ensures story.Clean() ==> error == None
      ensures var its := story.iterations;
        error == if exists i :: 0 <= i < |its| && its[i].coding then its[|its| - 1].error else None
    {
      SomeAttempt(story.iterations);
      if CodingAttempts(story.iterations) + 1 > 1 && story.iterations != [] then
        story.iterations[|story.iterations| - 1].error
      else None
    }

    /** At most one iteration is appended: a fresh one, without review and test report. */
    ghost predicate AtMostOneNew(before: seq<Iteration>, after: seq<Iteration>) {
      || after == before
      || (|after| == |before| + 1 && after[..|before|] == before
          && after[|before|].approved == None && after[|before|].failedTests == None)
    }

    /** The generator, if attached, finds a plan with tasks and does not raise. */
    predicate Generates(story: Story, a: Answer)
      reads story`planTasks
    {
      components.generator ==> HasTasks(story) && !a.raises
    }

    /** The guarded part of `_run_coding`; `stopped` tells that it returned early, over budget. */
    method GenerateWithinBudget(story: Story) returns (thrown: bool, stopped: bool)
      modifies this`asked, this`log, story`state, story`iterations
      ensures old(story.Clean()) ==> story.Clean() && OnlyQuiet(old(log), log)
      ensures AtMostOneNew(old(story.iterations), story.iterations)
      ensures story.state == if stopped then Failed else old(story.state)
      ensures !thrown && !stopped <==> Generates(story, world(old(asked))) && story.costBudget > story.totalCost
      ensures stopped <==> Generates(story, world(old(asked))) && story.costBudget <= story.totalCost
                           && table(old(story.state), Failed) && !thrown
      ensures |story.iterations| == |old(story.iterations)| + 1 <==>
              components.generator && Generates(story, world(old(asked)))
      ensures NoneActed(old(log)) ==> NoneActed(log)
      ensures Passes(log) == Passes(old(log))
    {
      thrown, stopped := false, false;
      var error := HandedOn(story);
      if components.generator {
        thrown := Generate(story, error);
      }
      if !thrown && story.costBudget - story.totalCost <= 0.0 {
        thrown := Transition(story, Failed);
        stopped := !thrown;
      }
    }

    method RunCoding(story: Story) returns (raised: bool)
      requires Ready()
      modifies this`asked, this`log, gates, story`state, story`iterations
      ensures Ready() && (old(story.Clean()) ==> story.Clean() && OnlyQuiet(old(log), log))
      ensures AtMostOneNew(old(story.iterations), story.iterations)
      ensures !raised ==> story.state == Coding || story.state == Failed
      ensures !raised && story.state == Coding <==>
              (old(story.state) == Coding || table(old(story.state), Coding))
              && Generates(story, world(old(asked) + 1)) && story.costBudget > story.totalCost
      ensures !raised && story.state == Failed <==>
              (old(story.state) == Coding || table(old(story.state), Coding)) && table(Coding, Failed)
              && (Generates(story, world(old(asked) + 1)) ==> story.costBudget <= story.totalCost)
      ensures |story.iterations| == |old(story.iterations)| + 1 <==>
              (old(story.state) == Coding || table(old(story.state), Coding))
              && components.generator && Generates(story, world(old(asked) + 1))
      ensures NoneActed(old(log)) ==> NoneActed(log)
      ensures Silent() ==> gates.history == old(gates.history)
      ensures Passes(log) == Passes(old(log))
    {
      hide Generates, HandedOn;
      raised := false;
      if story.state != Coding {
        raised := Transition(story, Coding);
        if raised {
          return;
        }
      }
      EmitEvent();
      // the context manager is asked here; its exceptions are swallowed
      var thrown, stopped := GenerateWithinBudget(story);
      if stopped {
        return;
      }
      raised := FailIfThrown(story, thrown);
    }

    // ---- review ----

    /** The reviewer, if attached, is asked about the last iteration if that has changes. */
    predicate Reviews(its: seq<Iteration>) {
      components.reviewer && its != [] && its[|its| - 1].changes != []
    }

    /** The iterations after an answer of the reviewer. */
    function Reviewed(its: seq<Iteration>, a: Answer): seq<Iteration> {
      if Reviews(its) && !a.raises then its[|its| - 1 := its[|its| - 1].(approved := Some(a.approved))] else its
    }

    /** The code-review adapter on the latest iteration. */
    method Review(story: Story) returns (raised: bool)
      modifies this`asked, story`iterations
      ensures LastUpdated(old(story.iterations), story.iterations)
      ensures var its, a := old(story.iterations), world(old(asked));
        if its == [] || its[|its| - 1].changes == [] then
          !raised && story.iterations == its
        else
          raised == a.raises
          && story.iterations == if raised then its else its[|its| - 1 := its[|its| - 1].(approved := Some(a.approved))]
    {
      if story.iterations == [] {
        return false;
      }
      var n := |story.iterations| - 1;
      if story.iterations[n].changes == [] {
        return false;
      }
      var a := Ask();
      if a.raises {
        return true;
      }
      story.iterations := story.iterations[n := story.iterations[n].(approved := Some(a.approved))];
      return false;
    }

    method RunReview(story: Story) returns (raised: bool)
      requires Ready()
      modifies this`asked, gates, story`state, story`iterations
      ensures Ready()
      ensures LastUpdated(old(story.iterations), story.iterations)
      ensures story.iterations ==
              if table(old(story.state), Reviewing) then Reviewed(old(story.iterations), world(old(asked) + 1))
              else old(story.iterations)
      ensures !raised ==> story.state == Coding || story.state == Testing || story.state == Failed
      ensures !raised && story.state == Testing <==>
              table(old(story.state), Reviewing) && table(Reviewing, Testing) && ReviewPassed(story.iterations)
              && (Reviews(old(story.iterations)) ==> !world(old(asked) + 1).raises)
      ensures !raised && story.state == Coding <==>
              table(old(story.state), Reviewing) && table(Reviewing, Coding) && !ReviewPassed(story.iterations)
              && (Reviews(old(story.iterations)) ==> !world(old(asked) + 1).raises)
      ensures Silent() ==> gates.history == old(gates.history)
    {
      raised := Transition(story, Reviewing);
      if raised {
        return;
      }
      EmitEvent();
      var thrown := ReviewAndMove(story);
      raised := FailIfThrown(story, thrown);
    }

    /** The guarded part of `_run_review`. */
    method ReviewAndMove(story: Story) returns (thrown: bool)
      modifies this`asked, story`state, story`iterations
      ensures LastUpdated(old(story.iterations), story.iterations)
      ensures story.iterations == Reviewed(old(story.iterations), world(old(asked)))
      ensures var target := if ReviewPassed(story.iterations) then Testing else Coding;
        && (thrown <==> (Reviews(old(story.iterations)) && world(old(asked)).raises)
                        || !table(old(story.state), target))
        && story.state == if thrown then old(story.state) else target
    {
      thrown := false;
      if components.reviewer {
        thrown := Review(story);
      }
      if !thrown {
        thrown := Transition(story, if ReviewPassed(story.iterations) then Testing else Coding);
      }
    }

    // ---- testing ----

    /** The attempts recorded for the tests of a story: failures, at most three and at most max_retries. */
    ghost predicate RetriesBounded(id: string)
      reads retries
    {
      var attempts := retries.Attempts(Retries.Key(id, "TESTING"));
      && (forall i :: 0 <= i < |attempts| ==> !attempts[i].success)
      && |attempts| <= Retries.THRESHOLD && (attempts != [] ==> |attempts| <= retries.maxRetries)
    }

    /** The attempts recorded for the tests of a story. */
    function Tries(id: string): nat
      reads retries
    {
      |retries.Attempts(Retries.Key(id, "TESTING"))|
    }

    predicate HasContent(it: Iteration) {
      exists c :: c in it.changes && c.hasContent
    }

    /** Tests are generated for a plan with tasks and a last iteration with content. */
    predicate GeneratesTests(story: Story)
      reads story`planTasks, story`iterations
    {
      && components.testGenerator && HasTasks(story) && story.iterations != []
      && HasContent(story.iterations[|story.iterations| - 1])
    }

    /**
      The guarded part of `_run_testing` gets past the generator and the runner, asked in this
      order, and the last iteration then has no failing test.
    */
    predicate TestsWell(story: Story, generated: Answer, tested: Answer)
      reads story`planTasks, story`iterations
    {
      && (GeneratesTests(story) ==> !generated.raises)
      && if components.testRunner && story.iterations != []
         then var a := if GeneratesTests(story) then tested else generated; !a.raises && a.failedTests <= 0
         else TestsPassed(story)
    }

    /** Fewer than three attempts are recorded for the tests, and fewer than max_retries. */
    predicate MayRetry(id: string)
      reads retries
    {
      Tries(id) < Retries.THRESHOLD && Tries(id) < retries.maxRetries
    }

    /**
      The test generator adapter: tests become changes of the latest iteration, also those made
      before an exception.
    */
    method GenerateTests(story: Story) returns (raised: bool)
      modifies this`asked, story`iterations
      ensures LastUpdated(old(story.iterations), story.iterations)
      ensures var its, a := old(story.iterations), world(old(asked));
        if !HasTasks(story) || its == [] || !(exists c :: c in its[|its| - 1].changes && c.hasContent) then
          !raised && story.iterations == its && asked == old(asked)
        else
          raised == a.raises && asked == old(asked) + 1
          && story.iterations == its[|its| - 1 := its[|its| - 1].(changes := its[|its| - 1].changes + a.changes)]
    {
      if !HasTasks(story) || story.iterations == [] {
        return false;
      }
      var n := |story.iterations| - 1;
      if HasContent(story.iterations[n]) {
        var a := Ask();
        var latest := story.iterations[n];
        story.iterations := story.iterations[n := latest.(changes := latest.changes + a.changes)];
        return a.raises;
      }
      return false;
    }

    /** The test runner adapter, which turns an exception into a report with one failure. */
    method RunTests(story: Story)
      modifies this`asked, story`iterations
      ensures LastUpdated(old(story.iterations), story.iterations)
      ensures var its, a := old(story.iterations), world(old(asked));
        story.iterations ==
          if its == [] then its
          else its[|its| - 1 := its[|its| - 1].(failedTests := Some(if a.raises then 1 else a.failedTests))]
    {
      if story.iterations == [] {
        return;
      }
      var n := |story.iterations| - 1;
      var a := Ask();
      var failed := if a.raises then 1 else a.failedTests;
      story.iterations := story.iterations[n := story.iterations[n].(failedTests := Some(failed))];
    }

    /** Ask the policy for another round of tests, and record the failed one if it agrees. */
    method CountRetry(id: string, fingerprint: string) returns (retry: bool)
      requires Ready() && RetriesBounded(id)
      modifies retries
      ensures Ready() && RetriesBounded(id)
      ensures retry <==> old(MayRetry(id))
      ensures var k := Retries.Key(id, "TESTING");
        retries.Attempts(k) ==
        old(retries.Attempts(k)) + if retry then [Retries.Attempt(false, fingerprint)] else []
    {
      var key := Retries.Key(id, "TESTING");
      retry := retries.ShouldRetry(key);
      Retries.OnlyFailuresTrail(retries.Attempts(key));
      if retry {
        retries.RecordAttempt(key, false, fingerprint);
      }
    }

    /** After failing tests: classify, ask the retry policy, and go back to coding or give up. */
    method AfterFailedTests(story: Story) returns (thrown: bool)
      requires Ready() && RetriesBounded(story.id)
      modifies this`asked, retries, story`state
      ensures Ready() && RetriesBounded(story.id)
      ensures !thrown ==> story.state == Coding || story.state == Failed
      ensures thrown ==> story.state == old(story.state)
      ensures var classified := components.classifier ==> !world(old(asked)).raises;
        var stored := components.memoryStore ==> !world(old(asked) + if components.classifier then 1 else 0).raises;
        && (!thrown && story.state == Coding <==>
              classified && old(MayRetry(story.id)) && stored && table(old(story.state), Coding))
        && (!thrown && story.state == Failed <==>
              classified && !old(MayRetry(story.id)) && table(old(story.state), Failed))
        && var k := Retries.Key(story.id, "TESTING");
           retries.Attempts(k) ==
           old(retries.Attempts(k)) + if classified && old(MayRetry(story.id))
                                      then [Retries.Attempt(false, if components.classifier
                                                                   then world(old(asked)).fingerprint else "")]
                                      else []
    {
      var fingerprint := "";
      if components.classifier {
        var a := Ask();
        if a.raises {
          return true;
        }
        fingerprint := a.fingerprint;
      }
      var retry := CountRetry(story.id, fingerprint);
      if retry {
        if components.memoryStore {
          var a := Ask();
          if a.raises {
            return true;
          }
        }
        thrown := Transition(story, Coding);
      } else {
        thrown := Transition(story, Failed);
      }
    }

    /** The tests of the last iteration, if any were reported, have no failure. */
    predicate TestsPassed(story: Story)
      reads story`iterations
    {
      story.iterations != [] ==>
        var report := story.iterations[|story.iterations| - 1].failedTests; report.Some? ==> report.value <= 0
    }

    predicate ReviewPassed(iterations: seq<Iteration>) {
      iterations != [] ==> iterations[|iterations| - 1].approved != Some(false)
    }

    /** The components that are asked after failing tests do not raise. */
    ghost predicate Recovers() {
      components.classifier || components.memoryStore ==> forall n :: !world(n).raises
    }

    /** The guarded part of `_run_testing`; `stopped` tells that failing tests were dealt with. */
    method TestAndCheck(story: Story) returns (thrown: bool, stopped: bool)
      requires Ready() && RetriesBounded(story.id)
      modifies this`asked, retries, story`state, story`iterations
      ensures Ready() && RetriesBounded(story.id)
      ensures LastUpdated(old(story.iterations), story.iterations)
      ensures ReviewPassed(old(story.iterations)) ==> ReviewPassed(story.iterations)
      ensures stopped ==> !thrown && (story.state == Coding || story.state == Failed)
      ensures !stopped ==> story.state == old(story.state)
      ensures !stopped && !thrown ==> TestsPassed(story)
      ensures stopped ==> !TestsPassed(story)
      ensures !thrown && components.testRunner && story.iterations != [] ==>
                story.iterations[|story.iterations| - 1].failedTests.Some?
      ensures !thrown && !stopped <==> old(TestsWell(story, world(asked), world(asked + 1)))
      ensures Recovers() && !TestsPassed(story) && (old(GeneratesTests(story)) ==> !world(old(asked)).raises) ==>
                var target := if old(MayRetry(story.id)) then Coding else Failed;
                (if table(old(story.state), target) then stopped && story.state == target else thrown)
                && Tries(story.id) == old(Tries(story.id)) + if target == Coding then 1 else 0
    {
      stopped := false;
      thrown := GenerateAndRunTests(story);
      if !thrown && !TestsPassed(story) {
        thrown := AfterFailedTests(story);
        stopped := !thrown;
      }
    }

    /** The test generator and the test runner, if attached. */
    method GenerateAndRunTests(story: Story) returns (thrown: bool)
      modifies this`asked, story`iterations
      ensures LastUpdated(old(story.iterations), story.iterations)
      ensures ReviewPassed(old(story.iterations)) ==> ReviewPassed(story.iterations)
      ensures !thrown && components.testRunner && story.iterations != [] ==>
                story.iterations[|story.iterations| - 1].failedTests.Some?
      ensures !thrown && TestsPassed(story) <==> old(TestsWell(story, world(asked), world(asked + 1)))
      ensures thrown <==> old(GeneratesTests(story)) && world(old(asked)).raises
    {
      thrown := false;
      if components.testGenerator {
        thrown := GenerateTests(story);
      }
      if !thrown && components.testRunner {
        RunTests(story);
      }
    }

    method RunTesting(story: Story) returns (raised: bool)
      requires Ready() && RetriesBounded(story.id)
      modifies this`asked, gates, retries, story`state, story`iterations
      ensures Ready() && RetriesBounded(story.id)
      ensures LastUpdated(old(story.iterations), story.iterations)
      ensures ReviewPassed(old(story.iterations)) ==> ReviewPassed(story.iterations)
      ensures !table(old(story.state), Testing) ==> raised
      ensures !raised ==> story.state == Coding || story.state == Testing || story.state == Failed
      ensures !raised && story.state == Testing ==> TestsPassed(story)
      ensures !raised && story.state == Coding ==> !TestsPassed(story)
      ensures !raised && story.state == Testing && components.testRunner && story.iterations != [] ==>
                story.iterations[|story.iterations| - 1].failedTests.Some?
      ensures !raised && story.state == Testing <==>
              table(old(story.state), Testing) && old(TestsWell(story, world(asked + 1), world(asked + 2)))
      ensures Recovers() && table(old(story.state), Testing) && !TestsPassed(story)
              && (old(GeneratesTests(story)) ==> !world(old(asked) + 1).raises) ==>
                var target := if old(MayRetry(story.id)) then Coding else Failed;
                (!raised && story.state == target <==> table(Testing, target))
                && Tries(story.id) == old(Tries(story.id)) + if target == Coding then 1 else 0
      ensures Silent() ==> gates.history == old(gates.history)
    {
      raised := Transition(story, Testing);
      if raised {
        return;
      }
      EmitEvent();
      hide TestsWell, GeneratesTests, MayRetry, Recovers, TestsPassed, RetriesBounded;
      var thrown, stopped := TestAndCheck(story);
      raised := FailIfThrown(story, thrown);
    }

    // ---- scans and quality gates ----

    /** Assigning to a field of the last iteration: an exception unless its record type has the field. */
    method AssignField(story: Story, field: string) returns (raised: bool)
      requires story.iterations != []
      ensures raised <==> field !in ITERATION_FIELDS
    {
      raised := field !in ITERATION_FIELDS;
    }

    /** The state after a failed check: back to coding while retries are left, else failed, if the table allows. */
    function AfterCheck(state: State, question: nat, tries: seq<Retries.Attempt>): State {
      var target := if Retries.TrailingFailures(tries) < Retries.THRESHOLD && |tries| < retries.maxRetries
                    then Coding else Failed;
      if components.postMortem && checks(question).raises then state
      else if table(state, target) then target
      else state
    }

    /** A failed check changes the state only if the post-mortem, if there is one, does not raise. */
    lemma AfterCheckIff(state: State, question: nat, tries: seq<Retries.Attempt>)
      requires state != Coding && state != Failed
      ensures var looked := components.postMortem ==> !checks(question).raises;
        var again := Retries.TrailingFailures(tries) < 3 && |tries| < retries.maxRetries;
        var after := AfterCheck(state, question, tries);
        && (after == Coding <==> looked && again && table(state, Coding))
        && (after == Failed <==> looked && !again && table(state, Failed))
        && (after == Coding || after == Failed || after == state)
    {
    }

    /** What a failed check does: back to coding or give up, swallowing every exception. */
    method AfterFailedCheck(story: Story)
      requires Ready()
      modifies this`checked, story`state
      ensures story.state ==
              AfterCheck(old(story.state), old(checked), retries.Attempts(Retries.Key(story.id, "TESTING")))
    {
      if components.postMortem {
        var a := AskCheck();
        if a.raises {
          return;
        }
      }
      var retry := retries.ShouldRetry(Retries.Key(story.id, "TESTING"));
      var thrown := Transition(story, if retry then Coding else Failed);
    }

    function ChangedFiles(story: Story): bool
      reads story`iterations
    {
      story.iterations != [] && exists c :: c in story.iterations[|story.iterations| - 1].changes && c.path != ""
    }

    /**
      `_run_security_scan`. A scan never moves the story, whatever it finds: storing its result on
      the iteration raises before the result is looked at, and the handler swallows that.
    */
    method RunSecurityScan(story: Story)
      requires Ready()
      modifies this`asked, this`checked, gates
      ensures Ready()
      ensures if components.scanner && ChangedFiles(story)
              then asked == old(asked) + 1 && gates.history == old(gates.history) + world(old(asked)).callbackOps
              else asked == old(asked) && gates.history == old(gates.history)
      ensures Silent() ==> gates.history == old(gates.history)
    {
      if !components.scanner || !ChangedFiles(story) {
        return;
      }
      var a := AskCheck();
      if !a.raises {
        var raised := AssignField(story, "security_scan_result");
        assert raised;
      }
      EmitEvent();
    }

    /**
      `_run_quality_gates`. On a story with iterations they never move the story either, for the
      same reason; only on a story without any does a failed evaluation count.
    */
    method RunQualityGates(story: Story)
      requires Ready()
      modifies this`asked, this`checked, this`log, gates, story`state
      ensures Ready()
      ensures story.iterations != [] ==> story.state == old(story.state) && log == old(log)
      ensures story.iterations == [] ==>
                var a := checks(old(checked));
                if components.qualityEngine && !a.raises && !a.passed then
                  story.state ==
                    AfterCheck(old(story.state), old(checked) + 1, retries.Attempts(Retries.Key(story.id, "TESTING")))
                  && log == old(log) + [ChecksActed]
                else story.state == old(story.state) && log == old(log)
      ensures if components.qualityEngine
              then asked == old(asked) + 1 && gates.history == old(gates.history) + world(old(asked)).callbackOps
              else asked == old(asked) && gates.history == old(gates.history)
      ensures Silent() ==> gates.history == old(gates.history)
      ensures Passes(log) == Passes(old(log))
    {
      hide AfterCheck;
      if !components.qualityEngine {
        return;
      }
      var a := AskCheck();
      var thrown := a.raises;
      if !thrown && story.iterations != [] {
        thrown := AssignField(story, "quality_gate_result");
      }
      if !thrown && !a.passed {
        PassesSnoc(log, ChecksActed);
        log := log + [ChecksActed];
        AfterFailedCheck(story);
      }
      EmitEvent();
    }

    // ---- the coding loop ----

    /** A story with budget that enters the coding loop for the first time. */
    predicate AtFirstPass(story: Story)
      reads story`state, story`iterations, story`totalCost
    {
      story.costBudget > story.totalCost && story.state == Coding && story.iterations == []
    }

    /** The first half of a pass: code and review; Finished means that testing comes next. */
    method CodeAndReview(story: Story) returns (raised: bool, end: PassEnd)
      requires Ready()
      modifies this`asked, this`log, gates, story`state, story`iterations
      ensures Ready() && (old(story.Clean()) ==> story.Clean() && OnlyQuiet(old(log), log))
      ensures |story.iterations| <= |old(story.iterations)| + 1
      ensures !raised && end == Leave ==> story.state == Failed
      ensures !raised && end == Finished ==> story.state == Testing && ReviewPassed(story.iterations)
      ensures !raised ==> (end == Retry <==> story.state == Coding)
      ensures Helpful() && old(AtFirstPass(story)) ==>
                && TestsPassed(story)
                && (!raised && end == Finished <==>
                      (components.generator ==> HasTasks(story)) && table(Coding, Reviewing)
                      && table(Reviewing, Testing))
                && (raised || end != Retry)
      ensures NoneActed(old(log)) ==> NoneActed(log)
      ensures !raised && end == Finished && components.generator ==> story.iterations != []
      ensures Silent() ==> gates.history == old(gates.history)
      ensures Passes(log) == Passes(old(log))
    {
      raised := RunCoding(story);
      if raised || story.state == Failed {
        return raised, Leave;
      }
      raised := RunReview(story);
      if raised || story.state == Failed {
        return raised, Leave;
      }
      if story.state == Coding {
        EmitEvent();
        return false, Retry;
      }
      return false, Finished;
    }

    /** The scan and the quality gates. */
    method ScanAndCheck(story: Story)
      requires Ready()
      modifies this`asked, this`checked, this`log, gates, story`state
      ensures Ready() && OnlyQuiet(old(log), log) && Passes(log) == Passes(old(log))
      ensures story.iterations != [] ==> story.state == old(story.state) && log == old(log)
      ensures story.state == old(story.state) || story.state == Coding || story.state == Failed
      ensures Helpful() && (components.generator ==> story.iterations != []) ==> story.state == old(story.state)
      ensures Silent() ==> gates.history == old(gates.history)
    {
      RunSecurityScan(story);
      RunQualityGates(story);
    }

    /** The second half of a pass: tests, scans and gates. */
    method TestAndScan(story: Story) returns (raised: bool, end: PassEnd)
      requires Ready() && RetriesBounded(story.id) && ReviewPassed(story.iterations) && story.state == Testing
      modifies this`asked, this`checked, this`log, gates, retries, story`state, story`iterations
      ensures Ready() && RetriesBounded(story.id) && LastUpdated(old(story.iterations), story.iterations)
      ensures OnlyQuiet(old(log), log)
      ensures !raised && end == Leave ==> story.state == Failed
      ensures !raised ==> (end == Retry <==> story.state == Coding)
      ensures !raised && end == Finished ==>
                (story.state == Testing || story.state == Failed) && story.LastIterationGood()
                    && table(Testing, Testing)
      ensures old(story.iterations) != [] ==> log == old(log)
      ensures old(story.iterations) != [] && !raised ==>
                && (end == Finished ==> story.state == Testing)
                && (end == Retry ==> !TestsPassed(story))
      ensures Helpful() && (components.generator ==> story.iterations != []) && old(TestsPassed(story)) ==>
                if table(Testing, Testing) then !raised && end == Finished && story.state == Testing else raised
      ensures Silent() ==> gates.history == old(gates.history)
      ensures Passes(log) == Passes(old(log))
    {
      raised := RunTesting(story);
      if raised || story.state == Failed {
        return raised, Leave;
      }
      if story.state == Coding {
        EmitEvent();
        return false, Retry;
      }
      // the scan leaves the state alone, so the check for CODING after it never applies
      ScanAndCheck(story);
      if story.state == Coding {
        EmitEvent();
        return false, Retry;
      }
      return false, Finished;
    }

    /** One pass of the loop: when it finishes, the last iteration is good. */
    method CodingPass(story: Story) returns (raised: bool, end: PassEnd)
      requires Ready() && RetriesBounded(story.id)
      modifies this`asked, this`checked, this`log, gates, retries, story`state, story`iterations
      ensures Ready() && RetriesBounded(story.id)
      ensures old(story.Clean()) ==> story.Clean() && OnlyQuiet(old(log), log)
      ensures |story.iterations| <= |old(story.iterations)| + 1
      ensures !raised && end == Leave ==> story.state == Failed
      ensures !raised ==> (end == Retry <==> story.state == Coding)
      ensures !raised && end == Finished ==>
                (story.state == Testing || story.state == Failed) && story.LastIterationGood()
                    && table(Testing, Testing)
      ensures Helpful() && old(AtFirstPass(story)) ==>
                && (!raised && end == Finished && story.state == Testing <==>
                      CodingOpen() && (components.generator ==> old(HasTasks(story))))
                && (raised || end != Retry)
      ensures Unmoved(old(log)) ==> Unmoved(log)
      ensures components.generator && !raised && end == Finished ==> story.state == Testing
      ensures Silent() ==> gates.history == old(gates.history)
      ensures Passes(log) == Passes(old(log))
    {
      raised, end := CodeAndReview(story);
      if raised || end != Finished {
        return;
      }
      raised, end := TestAndScan(story);
    }

    method CheckConvergence(story: Story) returns (verdict: Verdict)
      modifies this`log
      ensures verdict == Classify(DEFAULTS, story.Errors()) && log == old(log) + [ConvergenceChecked(verdict)]
      ensures story.Clean() ==> verdict == Progressing
      ensures Passes(log) == Passes(old(log)) + 1
    {
      verdict := Convergence.Check(DEFAULTS, story.Errors());
      if story.Clean() {
        NoErrorsProgress(DEFAULTS, story.Errors());
      }
      PassesSnoc(log, ConvergenceChecked(verdict));
      log := log + [ConvergenceChecked(verdict)];
    }

    /** What the loop does about a verdict other than "progressing"; `leave` tells that it ends the loop. */
    method OnConvergenceIssue(story: Story, verdict: Verdict) returns (raised: bool, leave: bool)
      requires Ready()
      modifies this`asked, this`log, gates, story`state, story`planTasks
      ensures Ready()
      ensures leave <==> verdict == Stuck || verdict == Diverging
      ensures raised ==> leave
      ensures log == old(log) + match verdict
                                { case Diverging => [Escalated] case Stuck => [Replanned] case _ => [] }
      ensures !leave ==> story.state == old(story.state) && story.planTasks == old(story.planTasks)
      ensures verdict == Diverging ==>
                (raised <==> !table(old(story.state), Failed)) && (!raised ==> story.state == Failed)
      ensures verdict == Stuck && !raised ==> story.state == Coding || story.state == Failed
      ensures verdict == Stuck && (raised || story.state == Coding) && story.state != old(story.state) ==>
                table(old(story.state), Planning)
      ensures Silent() ==> gates.history == old(gates.history)
      ensures Passes(log) == Passes(old(log))
    {
      raised, leave := false, false;
      if Recommended(verdict) == Escalate {
        PassesSnoc(log, Escalated);
        log := log + [Escalated];
        raised := Transition(story, Failed);
        if !raised {
          EmitEvent();
        }
        return raised, true;
      } else if Recommended(verdict) == Replan {
        PassesSnoc(log, Replanned);
        log := log + [Replanned];
        raised := Transition(story, Planning);
        if !raised {
          EmitEvent();
          raised := RunPlanning(story);
        }
        return raised, true;
      }
    }

    /** The top of the loop body: a story without error contexts always goes on to the pass. */
    method ConsiderConvergence(story: Story) returns (raised: bool, leave: bool)
      requires Ready()
      modifies this`asked, this`log, gates, story`state, story`planTasks
      ensures Ready() && (raised ==> leave)
      ensures !leave ==> story.state == old(story.state) && story.planTasks == old(story.planTasks)
      ensures old(story.Clean()) ==> !leave && OnlyQuiet(old(log), log)
      ensures NoneActed(old(log)) ==> NoneActed(log)
      ensures Silent() ==> gates.history == old(gates.history)
      ensures Passes(log) == Passes(old(log)) + 1
    {
      hide Classify;
      raised, leave := false, false;
      var verdict := CheckConvergence(story);
      if verdict != Progressing {
        raised, leave := OnConvergenceIssue(story, verdict);
      }
    }

    /** The body of the loop; `start` is the log at its entry. */
    method ConsiderAndPass(story: Story, ghost start: seq<Event>) returns (raised: bool, end: PassEnd)
      requires Ready() && RetriesBounded(story.id)
      modifies this`asked, this`checked, this`log, gates, retries, story`state, story`iterations, story`planTasks
      ensures Ready() && RetriesBounded(story.id)
      ensures old(story.Clean()) ==> story.Clean() && (OnlyQuiet(start, old(log)) ==> OnlyQuiet(start, log))
      ensures |story.iterations| <= |old(story.iterations)| + 1
      ensures Passes(log) == Passes(old(log)) + 1
      ensures old(story.Clean()) && !raised && end == Leave ==> story.state == Failed
      ensures old(story.Clean()) && !raised ==> (end == Retry <==> story.state == Coding)
      ensures old(story.Clean()) && !raised && end == Finished ==>
                (story.state == Testing || story.state == Failed) && story.LastIterationGood()
                && table(Testing, Testing)
      ensures Helpful() && old(AtFirstPass(story)) ==>
                && (!raised && end == Finished && story.state == Testing <==>
                      CodingOpen() && (components.generator ==> old(HasTasks(story))))
                && (raised || end != Retry)
      ensures Unmoved(old(log)) ==> Unmoved(log)
      ensures Silent() ==> gates.history == old(gates.history)
    {
      var leave;
      raised, leave := ConsiderConvergence(story);
      if leave {
        return raised, Leave;
      }
      ghost var considered := log;
      raised, end := CodingPass(story);
      if old(story.Clean()) && OnlyQuiet(start, old(log)) {
        QuietChain(start, old(log), considered);
        QuietChain(start, considered, log);
      }
    }

    function Allowance(): nat {
      if maxIterations >= 0 then maxIterations else 0
    }

    /** How many passes are left for a story with that many iterations. */
    function Left(used: nat): nat {
      if Allowance() > used then Allowance() - used else 0
    }

    /**
      `_run_coding_loop`. It ends within max_iterations passes, and earlier only if a pass raised or
      did not ask for another; `ends` tells how the passes ended. On a story without error contexts
      the branches that escalate or replan are never taken, and a normal end in a state other
      than FAILED means that the last iteration has no rejecting review and no failing test.
    */
    method RunCodingLoop(story: Story) returns (raised: bool, ghost ends: seq<PassEnd>)
      requires Ready() && RetriesBounded(story.id)
      modifies this`asked, this`checked, this`log, gates, retries, story`state, story`iterations, story`planTasks
      ensures Ready() && RetriesBounded(story.id)
      ensures old(story.Clean()) ==> story.Clean() && OnlyQuiet(old(log), log)
      ensures |old(story.iterations)| <= Allowance() ==> |story.iterations| <= Allowance()
      ensures old(story.Clean()) && !raised && story.state != Failed ==>
                story.state == Testing && story.LastIterationGood() && table(Testing, Testing) && Allowance() >= 1
      ensures Helpful() && old(AtFirstPass(story)) ==>
                (!raised && story.state == Testing <==>
                  CodingOpen() && (components.generator ==> old(HasTasks(story))))
      ensures Unmoved(old(log)) ==> Unmoved(log)
      ensures Silent() ==> gates.history == old(gates.history)
      ensures Passes(log) == Passes(old(log)) + |ends| && |ends| <= Left(|old(story.iterations)|)
      ensures forall i :: 0 <= i < |ends| - 1 ==> ends[i] == Retry
      ensures |ends| == Left(|old(story.iterations)|) || (ends != [] && (raised || ends[|ends| - 1] != Retry))
    {
      assert Helpful() ==> maxIterations >= 1;
      assert OnlyQuiet(log, log);
      hide Helpful, HasTasks, OnlyQuiet;
      var n: int := |story.iterations| + 1;
      ends := [];
      while n <= maxIterations
        invariant Ready() && RetriesBounded(story.id) && |story.iterations| <= n - 1
        invariant |old(story.iterations)| <= Allowance() ==> n - 1 <= Allowance()
        invariant old(story.Clean()) ==> story.Clean() && OnlyQuiet(old(log), log)
        invariant Passes(log) == Passes(old(log)) + |ends| && |ends| == n - 1 - |old(story.iterations)|
        invariant forall i :: 0 <= i < |ends| ==> ends[i] == Retry
        invariant n - 1 <= |old(story.iterations)| + Left(|old(story.iterations)|)
        invariant Silent() ==> gates.history == old(gates.history)
        invariant n > 1 ==> !(Helpful() && old(AtFirstPass(story)))
        invariant Unmoved(old(log)) ==> Unmoved(log)
        invariant n == 1 ==>
                    story.state == old(story.state) && story.iterations == old(story.iterations)
                    && story.planTasks == old(story.planTasks)
        decreases maxIterations - n
      {
        var end;
        raised, end := ConsiderAndPass(story, old(log));
        ends := ends + [end];
        if raised || end != Retry {
          return;
        }
        n := n + 1;
      }
      raised := GiveUp(story);
    }

    /** The end of the loop when it has used up its passes. */
    method GiveUp(story: Story) returns (raised: bool)
      requires Ready()
      modifies this`asked, gates, story`state
      ensures Ready() && (raised <==> !table(old(story.state), Failed))
      ensures story.state == if raised then old(story.state) else Failed
      ensures Silent() ==> gates.history == old(gates.history)
    {
      raised := Transition(story, Failed);
      if !raised {
        EmitEvent();
      }
    }

    // ---- deployment and verification ----

    /** The deployer adapter: the report goes to the last iteration, or to a new one if there is none. */
    method Deploy(story: Story) returns (raised: bool)
      modifies this`asked, this`log, story`iterations
      ensures log == old(log) + [DeployerCalled]
      ensures var its, a := old(story.iterations), world(old(asked));
        raised == a.raises
        && story.iterations ==
             if raised then its
             else if its == [] then [Iteration(1, false, [], None, None, Some(a.passed), None)]
             else its[|its| - 1 := its[|its| - 1].(deployed := Some(a.passed))]
      ensures old(story.Clean()) ==> story.Clean()
      ensures old(story.LastIterationGood()) ==> story.LastIterationGood()
    {
      log := log + [DeployerCalled];
      var a := Ask();
      if a.raises {
        return true;
      }
      if story.iterations != [] {
        var n := |story.iterations| - 1;
        story.iterations := story.iterations[n := story.iterations[n].(deployed := Some(a.passed))];
      } else {
        story.iterations := [Iteration(1, false, [], None, None, Some(a.passed), None)];
      }
      return false;
    }

    /** The deploy gate is disabled, or the latest decision recorded for the story approves. */
    ghost predicate GateOpen(id: string)
      reads gates
    {
      !gates.IsEnabled("pre_deploy") || AG.Latest(gates.history, AG.Key(id, "pre_deploy")) == Some(true)
    }

    /** The deploy gate is enabled and no decision is recorded for the story. */
    ghost predicate GatePending(id: string)
      reads gates
    {
      gates.IsEnabled("pre_deploy") && AG.Latest(gates.history, AG.Key(id, "pre_deploy")) == None
    }

    /** The gate check before a deployment, entered in the log with whether the gate was open. */
    method CheckDeployGate(story: Story) returns (status: AG.Status)
      requires Ready()
      modifies this`asked, this`log, gates
      ensures Ready()
      ensures log == old(log) + [GateChecked(status, old(GateOpen(story.id)))]
      ensures status == AG.Pass <==> old(GateOpen(story.id))
      ensures status == AG.Pending <==> old(GatePending(story.id))
    {
      ghost var open := GateOpen(story.id);
      ghost var latest := AG.Latest(gates.history, AG.Key(story.id, "pre_deploy"));
      assert latest.Some? ==> if latest.value then latest == Some(true) else latest == Some(false);
      var a := Ask();
      var checked := gates.CheckGate("pre_deploy", story.id, a.callbackOps);
      status := checked.value;
      log := log + [GateChecked(status, open)];
    }

    method RunDeployment(story: Story) returns (raised: bool, ghost status: AG.Status)
      requires Ready() && story.Clean()
      modifies this`asked, this`log, gates, story`state, story`iterations
      ensures Ready() && story.Clean() && DeploymentLog(old(log), log, status, old(GateOpen(story.id)))
      ensures status == AG.Pending ==> !raised && story.state == old(story.state)
      ensures status == AG.Blocked ==>
                (raised <==> !table(old(story.state), Failed)) && (!raised ==> story.state == Failed)
      ensures status == AG.Pass && !raised ==> story.state == Verifying || story.state == Failed
      ensures status == AG.Pass && !raised && story.state == Verifying && components.deployer ==>
                log[|log| - 1] == DeployerCalled
      ensures |story.iterations| <= |old(story.iterations)| || |story.iterations| <= 1
      ensures old(story.LastIterationGood()) ==> story.LastIterationGood()
      ensures !raised ==> story.state == old(story.state) || story.state == Verifying || story.state == Failed
      ensures status == AG.Pending <==> old(GatePending(story.id))
      ensures DeploysThrough() && old(GateOpen(story.id)) ==>
                (!raised && story.state == Verifying <==>
                  (table(old(story.state), Deploying) && table(Deploying, Verifying)))
                && (!raised ==> story.state == Verifying || story.state == Failed)
    {
      var decided := CheckDeployGate(story);
      status := decided;
      raised := false;
      if decided == AG.Pending {
        EmitEvent();
        return;
      }
      if decided == AG.Blocked {
        raised := Transition(story, Failed);
        if !raised {
          EmitEvent();
        }
        return;
      }
      raised := Transition(story, Deploying);
      if raised {
        return;
      }
      EmitEvent();
      raised := DeployAndAdvance(story);
    }

    /**
      The guarded part of `_run_deployment`. The report is stored and never looked at: the story
      goes on to VERIFYING whether or not it says that the deployment passed.
    */
    method DeployAndAdvance(story: Story) returns (raised: bool)
      requires Ready() && story.Clean()
      modifies this`asked, this`log, gates, story`state, story`iterations
      ensures Ready() && story.Clean()
      ensures log == old(log) + if components.deployer then [DeployerCalled] else []
      ensures |story.iterations| <= |old(story.iterations)| || |story.iterations| <= 1
      ensures old(story.LastIterationGood()) ==> story.LastIterationGood()
      ensures !raised ==> story.state == Verifying || story.state == Failed
      ensures !raised && story.state == Verifying <==>
                table(old(story.state), Verifying) && (components.deployer ==> !world(old(asked)).raises)
      ensures components.deployer && !world(old(asked)).raises ==>
                story.iterations != []
                && story.iterations[|story.iterations| - 1].deployed == Some(world(old(asked)).passed)
    {
      raised := false;
      var thrown := false;
      if components.deployer {
        thrown := Deploy(story);
      }
      if !thrown {
        thrown := Transition(story, Verifying);
      }
      raised := FailIfThrown(story, thrown);
    }

    /** `_run_verification`; the verifier adapter swallows every exception. */
    method RunVerification(story: Story) returns (raised: bool)
      requires Ready()
      modifies this`asked, gates, story`state
      ensures Ready() && (raised <==> !table(old(story.state), Verifying))
      ensures !raised ==> story.state == Verifying
    {
      raised := Transition(story, Verifying);
      if raised {
        return;
      }
      EmitEvent();
      if components.verifier {
        var a := Ask();
      }
      EmitEvent();
    }

    // ---- a whole run ----

    /** Analysis and planning of a fresh story. */
    method Prepare(story: Story) returns (raised: bool, go: bool)
      requires Ready() && story.IsNew()
      modifies this`asked, gates, story`state, story`hasSpec, story`planTasks
      ensures Ready() && (raised ==> !go) && (!raised && !go ==> story.state == Failed)
      ensures go ==> story.state == Coding && table(Planning, Planning)
      ensures StopsAtPlanning(table) && raised ==> story.state == Planning
      ensures Helpful() ==>
                (go && (components.generator ==> HasTasks(story)) <==>
                  table(Received, Analyzing) && table(Analyzing, Planning)
                      && table(Planning, Planning) && table(Planning, Coding) && Wired())
      ensures Silent() ==> gates.history == old(gates.history)
    {
      raised := RunAnalysis(story);
      if raised || story.state == Failed {
        return raised, false;
      }
      raised := RunPlanning(story);
      go := !raised && story.state != Failed;
    }

    /** Analysis, planning and the coding loop of a fresh story; `go` tells that deployment comes next. */
    method Develop(story: Story) returns (raised: bool, go: bool)
      requires Ready() && RetriesBounded(story.id) && log == []
      requires story.IsNew()
      modifies this`asked, this`checked, this`log, gates, retries
      modifies story`state, story`hasSpec, story`planTasks, story`iterations
      ensures Ready() && RetriesBounded(story.id) && story.Clean() && OnlyQuiet([], log)
      ensures |story.iterations| <= Allowance()
      ensures !table(Planning, Planning) ==> story.iterations == [] && log == [] && !go
      ensures StopsAtPlanning(table) && raised ==> story.state == Planning
      ensures raised ==> !go
      ensures !raised && !go ==> story.state == Failed
      ensures go ==> story.state == Testing && story.LastIterationGood()
                     && table(Planning, Planning) && table(Testing, Testing) && Allowance() >= 1
      ensures Helpful() && story.costBudget > story.totalCost ==> (go <==> DevelopOpen() && Wired())
      ensures Unmoved(log)
      ensures Silent() ==> gates.history == old(gates.history)
      ensures Passes(log) <= Allowance()
    {
      raised, go := Prepare(story);
      if !go {
        return;
      }
      ghost var ends;
      raised, ends := RunCodingLoop(story);
      go := !raised && story.state != Failed;
    }

    /** Deployment and verification. */
    method Release(story: Story) returns (raised: bool)
      requires Ready() && story.Clean() && story.LastIterationGood() && OnlyQuiet([], log) && story.state == Testing
      requires |story.iterations| <= Allowance() && Allowance() >= 1
      modifies this`asked, this`log, gates, story`state, story`iterations
      ensures Ready() && story.Clean() && story.LastIterationGood() && RunLog(log)
      ensures |story.iterations| <= Allowance()
      ensures !raised ==> story.state == Done || story.state == Failed
      ensures old(GatePending(story.id)) ==>
                NoneDeployed(log)
                && (!raised && story.state == Done <==> table(Testing, Verifying) && table(Verifying, Done))
      ensures DeploysThrough() && old(GateOpen(story.id)) ==>
                (!raised && story.state == Done <==>
                  table(Testing, Deploying) && table(Deploying, Verifying) && table(Verifying, Verifying)
                      && table(Verifying, Done))
      ensures old(Unmoved(log)) ==> Unmoved(log)
      ensures !raised && story.state == Done ==> Delivered(log)
      ensures Passes(log) == Passes(old(log))
    {
      ghost var before, open := log, GateOpen(story.id);
      ghost var status;
      raised, status := RunDeployment(story);
      DeploymentEndsRun(before, log, status, open);
      if raised || story.state == Failed {
        return;
      }
      raised := RunVerification(story);
      if raised {
        return;
      }
      raised := Transition(story, Done);
    }

    /**
      How a run ends: `funded` tells that it has budget, `stays` and `pending` what the deploy gate
      was at its start. The two equivalences hold when the components answer well.
    */
    ghost predicate Ended(raised: bool, state: State, its: seq<Iteration>, events: seq<Event>,
                          funded: bool, stays: bool, pending: bool)
    {
      var done := !raised && state == Done;
      && (!raised ==> state == Done || state == Failed)
      && (done ==> table(Planning, Planning) && table(Testing, Testing) && Delivered(events))
      && (!table(Planning, Planning) ==> its == [] && events == [] && (raised || state == Failed))
      && (StopsAtPlanning(table) && raised ==> state == Planning)
      && (Helpful() && funded && DeploysThrough() && stays ==> (done <==> PathOpen() && Wired()))
      && (Helpful() && funded && Silent() && pending ==> NoneDeployed(events) && (done <==> SkipOpen() && Wired()))
    }

    /** All stages of a fresh story, up to the handler of `process_story`. */
    method RunStages(story: Story) returns (raised: bool)
      requires Ready() && RetriesBounded(story.id) && log == []
      requires story.IsNew()
      modifies this`asked, this`checked, this`log, gates, retries
      modifies story`state, story`hasSpec, story`planTasks, story`iterations
      ensures Ready() && RetriesBounded(story.id) && story.Clean() && RunLog(log)
      ensures |story.iterations| <= Allowance() && Passes(log) <= Allowance() && Unmoved(log)
      ensures !raised && story.state == Done ==> story.LastIterationGood()
      ensures Ended(raised, story.state, story.iterations, log, story.costBudget > story.totalCost,
                    old(StaysOpen(story.id)), old(GatePending(story.id)))
    {
      var go;
      raised, go := Develop(story);
      if go {
        raised := Release(story);
      } else {
        QuietIsRunLog(log);
      }
    }

    /** The end of `process_story`: a stage that failed the story returns at once, an exception is handled. */
    method Conclude(story: Story, thrown: bool) returns (raised: bool)
      requires Ready()
      modifies this`asked, gates, story`state
      ensures Ready() && (raised <==> thrown && !table(old(story.state), Failed))
      ensures story.state == if thrown && !raised then Failed else old(story.state)
    {
      raised := false;
      if !thrown && story.state == Failed {
        return;
      }
      raised := FailIfThrown(story, thrown);
    }

    /** The stages with their exception handler. */
    method RunGuarded(story: Story) returns (raised: bool)
      requires Ready() && RetriesBounded(story.id) && log == []
      requires story.IsNew()
      modifies this`asked, this`checked, this`log, gates, retries
      modifies story`state, story`hasSpec, story`planTasks, story`iterations
      ensures Ready() && RetriesBounded(story.id) && story.Clean() && RunLog(log)
      ensures |story.iterations| <= Allowance() && Passes(log) <= Allowance() && Unmoved(log)
      ensures !raised && story.state == Done ==> story.LastIterationGood()
      ensures Ended(raised, story.state, story.iterations, log, story.costBudget > story.totalCost,
                    old(StaysOpen(story.id)), old(GatePending(story.id)))
      ensures raised ==> !table(story.state, Failed)
      ensures StopsAtPlanning(table) ==> !raised
    {
      hide Ended;
      var thrown := RunStages(story);
      ghost var reached := story.state;
      raised := Conclude(story, thrown);
      if thrown {
        Handled(reached, raised, story.state, story.iterations, log, story.costBudget > story.totalCost,
                old(StaysOpen(story.id)), old(GatePending(story.id)));
      }
    }

    /** An exception that was raised in state `reached` ends in FAILED, or leaves the run there. */
    lemma Handled(reached: State, raised: bool, state: State, its: seq<Iteration>, events: seq<Event>,
                  funded: bool, stays: bool, pending: bool)
      requires Ended(true, reached, its, events, funded, stays, pending)
      requires state == (if raised then reached else Failed) && (raised <==> !table(reached, Failed))
      ensures Ended(raised, state, its, events, funded, stays, pending)
      ensures StopsAtPlanning(table) ==> !raised
    {
    }

    /**
      `process_story` for one submission. `raised` tells that an exception leaves it, which
      happens only if the handler itself cannot move the story to FAILED.

      Whatever components answer: no iteration ever carries an error context, convergence is
      always "progressing", the story never holds more than max_iterations iterations, test
      retries stay within the policy, and the deployer is called only after a gate check that
      passed. With a generator attached, no scan and no quality gate ever moves the story. A story
      is DONE only if its last iteration has no rejecting review and no failing test, only under
      a table with self-transitions the stages rely on, and only after a passed gate and the call
      of the deployer, unless the gate was pending and the table lets it skip deployment.

      The shipped table has none of them: under it every run stops when planning starts, with the
      story FAILED, and nothing is ever generated or deployed.
    */
    method ProcessStory(id: string, costBudget: real) returns (story: Story, raised: bool)
      requires Ready() && RetriesBounded(id)
      modifies this`asked, this`checked, this`log, gates, retries
      ensures Ready() && RetriesBounded(id) && fresh(story) && story.id == id
      ensures story.Clean() && RunLog(log)
      ensures |story.iterations| <= Allowance()
      ensures !raised ==> story.state == Done || story.state == Failed
      ensures raised ==> !table(story.state, Failed)
      ensures story.state == Done && !raised ==>
                story.LastIterationGood() && table(Planning, Planning) && table(Testing, Testing)
      ensures !table(Planning, Planning) ==> story.iterations == [] && log == [] && (raised || story.state == Failed)
      ensures StopsAtPlanning(table) ==> !raised && story.state == Failed && story.iterations == [] && log == []
      ensures Helpful() && costBudget > 0.0 && DeploysThrough() && old(StaysOpen(id)) ==>
                (!raised && story.state == Done <==> PathOpen() && Wired())
      ensures Helpful() && costBudget > 0.0 && Silent() && old(GatePending(id)) ==>
                NoneDeployed(log) && (!raised && story.state == Done <==> SkipOpen() && Wired())
      ensures !raised && story.state == Done && components.deployer && !table(Testing, Verifying) ==>
                log != [] && log[|log| - 1] == DeployerCalled
      ensures Unmoved(log)
      ensures !raised && story.state == Done ==> Delivered(log)
      ensures Passes(log) <= Allowance()
    {
      story := new Story(id, costBudget);
      log := [];
      EmitEvent();
      raised := RunGuarded(story);
    }
  }

  /** The log of a deployment step: one gate check, and after a pass possibly one call of the deployer. */
  ghost predicate DeploymentLog(before: seq<Event>, after: seq<Event>, status: AG.Status, open: bool) {
    && (status == AG.Pass <==> open)
    && (after == before + [GateChecked(status, open)]
        || (status == AG.Pass && after == before + [GateChecked(status, open), DeployerCalled]))
  }

  ghost predicate NoneDeployed(log: seq<Event>) {
    forall i :: 0 <= i < |log| ==> !log[i].DeployerCalled?
  }

  /** The log of a whole run. */
  ghost predicate RunLog(log: seq<Event>) {
    && Gated(log)
    && forall i :: 0 <= i < |log| ==> IsQuiet(log[i]) || log[i].GateChecked? || log[i].DeployerCalled?
  }

  lemma QuietIsRunLog(log: seq<Event>)
    requires OnlyQuiet([], log)
    ensures RunLog(log)
  {
  }

  /** A run whose log ends with a deployment step. */
  lemma DeploymentEndsRun(before: seq<Event>, log: seq<Event>, status: AG.Status, open: bool)
    requires OnlyQuiet([], before) && DeploymentLog(before, log, status, open)
    ensures RunLog(log) && LastGate(log) == Some(GateChecked(status, open))
    ensures NoneActed(before) ==> NoneActed(log)
    ensures Passes(log) == Passes(before)
    ensures status != AG.Pass ==> NoneDeployed(log)
  {
    PassesSnoc(before, GateChecked(status, open));
    PassesSnoc(before + [GateChecked(status, open)], DeployerCalled);
    var gate := before + [GateChecked(status, open)];
    assert gate[..|before|] == before && log[..|before| + 1] == gate;
    assert LastGate(gate) == Some(GateChecked(status, open));
    if |log| == |before| + 2 {
      assert log == gate + [DeployerCalled] && log[..|log| - 1] == gate;
    } else {
      assert log == gate;
    }
  }

  /** The transitions of a run that skips a pending deployment. */
  predicate Skips(table: Table) {
    && table(Received, Analyzing) && table(Analyzing, Planning)
    && table(Planning, Planning) && table(Planning, Coding)
    && table(Coding, Reviewing) && table(Reviewing, Testing) && table(Testing, Testing)
    && table(Testing, Verifying) && table(Verifying, Done)
  }

  /** Under every such table a story becomes DONE with a deployer attached that is never called. */
  method UndeployedRun(table: Table) returns (orchestrator: Orchestrator, story: Story)
    requires Skips(table)
    ensures fresh(orchestrator) && orchestrator.table == table && orchestrator.components.deployer
    ensures story.state == Done && NoneDeployed(orchestrator.log)
  {
    var gates := new AG.ApprovalGateManager(map["pre_deploy" := true]);
    var retries := new Retries.RetryPolicy(3);
    var answer := Answer(false, 0, [], true, 0, "", true, []);
    var components := NO_COMPONENTS.(deployer := true);
    orchestrator := new Orchestrator(table, 1, components, _ => answer, _ => answer, gates, retries);
    var raised;
    story, raised := orchestrator.ProcessStory("story", 1.0);
  }

  /** With everything attached and answering well, a story becomes DONE under exactly the tables that open its path. */
  method AssistedRun(table: Table) returns (orchestrator: Orchestrator, story: Story, raised: bool)
    ensures fresh(orchestrator) && orchestrator.table == table && orchestrator.components == ALL_COMPONENTS
    ensures !raised && story.state == Done <==> orchestrator.PathOpen()
  {
    var gates := new AG.ApprovalGateManager(map[]);
    var retries := new Retries.RetryPolicy(3);
    var answer := Answer(false, 1, [Change("a", true)], true, 0, "", true, []);
    orchestrator := new Orchestrator(table, 1, ALL_COMPONENTS, _ => answer, _ => answer, gates, retries);
    story, raised := orchestrator.ProcessStory("story", 1.0);
  }
}
