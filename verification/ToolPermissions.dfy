/** The tool decorator: permission check, logging and error passing over nested
    calls, and the workflow context set around a run. */
module ToolPermissions {
  import opened Prelude

  datatype Error = PermissionError | CancelledError | OtherError

  datatype Context = Context(workflow: string, allowed: set<string>)

  /** What a tool or workflow body may do, as far as the decorator can tell: end
      normally or by an error, call a tool, do one thing after another, and
      handle errors of some kinds. */
  datatype Body =
    | Return
    | Raise(error: Error)
    | Call(tool: string, inner: Body)
    | Then(first: Body, next: Body)
    | Try(attempt: Body, handled: set<Error>, handler: Body)

  datatype LogOutcome = LoggedSuccess | LoggedDenied | LoggedError(error: Error)

  datatype Entry = Entry(workflow: string, tool: string, outcome: LogOutcome)

  // ---- what the decorator logs ----

  datatype Ran = Ran(raised: Option<Error>, log: seq<Entry>)

  /** How a body ends in a context, and the log entries it asks for. */
  function Run(b: Body, ctx: Option<Context>): Ran {
    match b
    case Return => Ran(None, [])
    case Raise(e) => Ran(Some(e), [])
    case Call(tool, inner) =>
      if ctx.None? then Run(inner, ctx)
      else if tool !in ctx.value.allowed then
        Ran(Some(PermissionError), [Entry(ctx.value.workflow, tool, LoggedDenied)])
      else
        var r := Run(inner, ctx);
        match r.raised {
          case None => Ran(None, r.log + [Entry(ctx.value.workflow, tool, LoggedSuccess)])
          case Some(PermissionError) => r
          case Some(e) => Ran(Some(e), r.log + [Entry(ctx.value.workflow, tool, LoggedError(e))])
        }
    case Then(first, next) =>
      var r := Run(first, ctx);
      if r.raised.Some? then r
      else var q := Run(next, ctx); Ran(q.raised, r.log + q.log)
    case Try(attempt, handled, handler) =>
      var r := Run(attempt, ctx);
      if r.raised.Some? && r.raised.value in handled then
        var q := Run(handler, ctx);
        Ran(q.raised, r.log + q.log)
      else r
  }

  /** The entries that reach the log: an append that fails is swallowed. `n` is
      the number of appends tried before. */
  function Stored(entries: seq<Entry>, fails: nat -> bool, n: nat): seq<Entry> {
    if entries == [] then []
    else (if fails(n) then [] else [entries[0]]) + Stored(entries[1..], fails, n + 1)
  }

  lemma {:induction false} StoredAppends(a: seq<Entry>, b: seq<Entry>, fails: nat -> bool, n: nat)
    ensures Stored(a + b, fails, n) == Stored(a, fails, n) + Stored(b, fails, n + |a|)
    decreases |a|
  {
    if a == [] {
      assert a + b == b;
    } else {
      assert (a + b)[1..] == a[1..] + b;
      StoredAppends(a[1..], b, fails, n + 1);
    }
  }

  /** Of the entries asked for, in order, just those are missing whose own append
      failed. */
  lemma StoredOneByOne(entries: seq<Entry>, entry: Entry, fails: nat -> bool, n: nat)
    ensures Stored([], fails, n) == []
    ensures Stored(entries + [entry], fails, n)
            == if fails(n + |entries|) then Stored(entries, fails, n) else Stored(entries, fails, n) + [entry]
  {
    StoredAppends(entries, [entry], fails, n);
    assert [entry][1..] == [];
    assert Stored(entries, fails, n) + [] == Stored(entries, fails, n);
  }

  // ---- the calls made, without regard to logging ----

  datatype CallOutcome = Refused | Ended(raised: Option<Error>)

  /** A call with the calls made from its body, in order. */
  datatype CallTree = CallTree(tool: string, inner: seq<CallTree>, outcome: CallOutcome)

  datatype Made = Made(raised: Option<Error>, calls: seq<CallTree>)

  function Calls(b: Body, ctx: Option<Context>): Made {
    match b
    case Return => Made(None, [])
    case Raise(e) => Made(Some(e), [])
    case Call(tool, inner) =>
      if ctx.Some? && tool !in ctx.value.allowed then
        Made(Some(PermissionError), [CallTree(tool, [], Refused)])
      else
        var m := Calls(inner, ctx);
        Made(m.raised, [CallTree(tool, m.calls, Ended(m.raised))])
    case Then(first, next) =>
      var m := Calls(first, ctx);
      if m.raised.Some? then m
      else var q := Calls(next, ctx); Made(q.raised, m.calls + q.calls)
    case Try(attempt, handled, handler) =>
      var m := Calls(attempt, ctx);
      if m.raised.Some? && m.raised.value in handled then
        var q := Calls(handler, ctx);
        Made(q.raised, m.calls + q.calls)
      else m
  }

  /** The call was left by a permission error raised in its body. */
  predicate LeftByPermission(t: CallTree) {
    t.outcome == Ended(Some(PermissionError))
  }

  function OutcomeEntry(t: CallTree, workflow: string): Entry {
    Entry(workflow, t.tool,
      match t.outcome
      case Refused => LoggedDenied
      case Ended(None) => LoggedSuccess
      case Ended(Some(e)) => LoggedError(e))
  }

  /** One entry per call in post-order, without the calls left by a permission
      error. */
  function PostOrder(calls: seq<CallTree>, workflow: string): seq<Entry> {
    if calls == [] then []
    else
      var t := calls[0];
      PostOrder(t.inner, workflow)
      + (if LeftByPermission(t) then [] else [OutcomeEntry(t, workflow)])
      + PostOrder(calls[1..], workflow)
  }

  function Size(calls: seq<CallTree>): nat {
    if calls == [] then 0 else 1 + Size(calls[0].inner) + Size(calls[1..])
  }

  function LeftCount(calls: seq<CallTree>): nat {
    if calls == [] then 0
    else (if LeftByPermission(calls[0]) then 1 else 0) + LeftCount(calls[0].inner) + LeftCount(calls[1..])
  }

  /** A call ran its body exactly if its tool is allowed. */
  predicate RanExactlyIfAllowed(calls: seq<CallTree>, allowed: set<string>) {
    calls == [] ||
    (&& (calls[0].outcome == Refused <==> calls[0].tool !in allowed)
     && (calls[0].outcome == Refused ==> calls[0].inner == [])
     && RanExactlyIfAllowed(calls[0].inner, allowed)
     && RanExactlyIfAllowed(calls[1..], allowed))
  }

  // ---- main results ----

  lemma {:induction false} PostOrderAppends(a: seq<CallTree>, b: seq<CallTree>, workflow: string)
    ensures PostOrder(a + b, workflow) == PostOrder(a, workflow) + PostOrder(b, workflow)
    decreases |a|
  {
    if a == [] {
      assert a + b == b;
    } else {
      assert (a + b)[1..] == a[1..] + b;
      PostOrderAppends(a[1..], b, workflow);
    }
  }

  lemma {:induction false} AllowedAppends(a: seq<CallTree>, b: seq<CallTree>, allowed: set<string>)
    requires RanExactlyIfAllowed(a, allowed) && RanExactlyIfAllowed(b, allowed)
    ensures RanExactlyIfAllowed(a + b, allowed)
    decreases |a|
  {
    if a == [] {
      assert a + b == b;
    } else {
      assert (a + b)[1..] == a[1..] + b;
      AllowedAppends(a[1..], b, allowed);
    }
  }

  /** The log lists the calls made in post-order, and no body runs unless allowed. */
  ghost predicate Agree(b: Body, c: Context) {
    var made := Calls(b, Some(c));
    Run(b, Some(c)) == Ran(made.raised, PostOrder(made.calls, c.workflow)) && RanExactlyIfAllowed(made.calls, c.allowed)
  }

  lemma PostOrderOfOne(t: CallTree, workflow: string)
    ensures PostOrder([t], workflow)
            == PostOrder(t.inner, workflow) + if LeftByPermission(t) then [] else [OutcomeEntry(t, workflow)]
  {
    assert [t][1..] == [];
    assert PostOrder([], workflow) == [];
  }

  lemma CallAgrees(tool: string, inner: Body, c: Context)
    requires Agree(inner, c)
    ensures Agree(Call(tool, inner), c)
  {
    var made := Calls(inner, Some(c));
    if tool in c.allowed {
      var t := CallTree(tool, made.calls, Ended(made.raised));
      PostOrderOfOne(t, c.workflow);
      assert RanExactlyIfAllowed([t][1..], c.allowed);
    } else {
      PostOrderOfOne(CallTree(tool, [], Refused), c.workflow);
      assert RanExactlyIfAllowed([CallTree(tool, [], Refused)][1..], c.allowed);
    }
  }

  lemma ThenAgrees(first: Body, next: Body, c: Context)
    requires Agree(first, c) && Agree(next, c)
    ensures Agree(Then(first, next), c)
  {
    hide PostOrder, RanExactlyIfAllowed;
    PostOrderAppends(Calls(first, Some(c)).calls, Calls(next, Some(c)).calls, c.workflow);
    AllowedAppends(Calls(first, Some(c)).calls, Calls(next, Some(c)).calls, c.allowed);
  }

  lemma TryAgrees(attempt: Body, handled: set<Error>, handler: Body, c: Context)
    requires Agree(attempt, c) && Agree(handler, c)
    ensures Agree(Try(attempt, handled, handler), c)
  {
    hide PostOrder, RanExactlyIfAllowed;
    PostOrderAppends(Calls(attempt, Some(c)).calls, Calls(handler, Some(c)).calls, c.workflow);
    AllowedAppends(Calls(attempt, Some(c)).calls, Calls(handler, Some(c)).calls, c.allowed);
  }

  lemma LeafAgrees(b: Body, c: Context)
    requires b.Return? || b.Raise?
    ensures Agree(b, c)
  {
  }

  lemma {:induction false} AlwaysAgree(b: Body, c: Context)
    ensures Agree(b, c)
  {
    hide Agree;
    match b {
      case Return => LeafAgrees(b, c);
      case Raise(_) => LeafAgrees(b, c);
      case Call(tool, inner) =>
        AlwaysAgree(inner, c);
        CallAgrees(tool, inner, c);
      case Then(first, next) =>
        AlwaysAgree(first, c);
        AlwaysAgree(next, c);
        ThenAgrees(first, next, c);
      case Try(attempt, handled, handler) =>
        AlwaysAgree(attempt, c);
        AlwaysAgree(handler, c);
        TryAgrees(attempt, handled, handler, c);
    }
  }

  /** Inside a workflow the log lists the calls in post-order, one entry for each
      but those left by a permission error, and no tool body runs unless allowed. */
  lemma LogIsPostOrder(b: Body, c: Context)
    ensures var made := Calls(b, Some(c));
            && Run(b, Some(c)) == Ran(made.raised, PostOrder(made.calls, c.workflow))
            && RanExactlyIfAllowed(made.calls, c.allowed)
  {
    hide Run, Calls, PostOrder, RanExactlyIfAllowed;
    AlwaysAgree(b, c);
  }

  lemma {:induction false} PostOrderCounts(calls: seq<CallTree>, workflow: string)
    ensures |PostOrder(calls, workflow)| + LeftCount(calls) == Size(calls)
  {
    if calls == [] {
    } else {
      PostOrderCounts(calls[0].inner, workflow);
      PostOrderCounts(calls[1..], workflow);
    }
  }

  /** Calls and entries differ by exactly the calls left by a permission error. */
  lemma EveryCallAccounted(b: Body, c: Context)
    ensures var calls := Calls(b, Some(c)).calls;
            |Run(b, Some(c)).log| == Size(calls) - LeftCount(calls)
  {
    LogIsPostOrder(b, c);
    PostOrderCounts(Calls(b, Some(c)).calls, c.workflow);
  }

  /** The body with every decorator removed. */
  function Undecorated(b: Body): Body {
    match b
    case Return => b
    case Raise(_) => b
    case Call(_, inner) => Undecorated(inner)
    case Then(first, next) => Then(Undecorated(first), Undecorated(next))
    case Try(attempt, handled, handler) => Try(Undecorated(attempt), handled, Undecorated(handler))
  }

  /** Every tool the body may call. */
  function Tools(b: Body): set<string> {
    match b
    case Return => {}
    case Raise(_) => {}
    case Call(tool, inner) => {tool} + Tools(inner)
    case Then(first, next) => Tools(first) + Tools(next)
    case Try(attempt, _, handler) => Tools(attempt) + Tools(handler)
  }

  /** Outside a workflow the decorator does nothing at all. */
  lemma {:induction false} TransparentOutside(b: Body)
    ensures Run(b, None) == Run(Undecorated(b), None) && Run(b, None).log == []
  {
    match b {
      case Return =>
      case Raise(_) =>
      case Call(_, inner) => TransparentOutside(inner);
      case Then(first, next) =>
        TransparentOutside(first);
        TransparentOutside(next);
      case Try(attempt, _, handler) =>
        TransparentOutside(attempt);
        TransparentOutside(handler);
    }
  }

  /** Inside a workflow that allows all its tools a body ends as it would without
      the decorator: logging never changes an outcome. */
  lemma {:induction false} AllowedEndsTheSame(b: Body, c: Context)
    requires Tools(b) <= c.allowed
    ensures Run(b, Some(c)).raised == Run(Undecorated(b), None).raised
  {
    match b {
      case Return =>
      case Raise(_) =>
      case Call(_, inner) => AllowedEndsTheSame(inner, c);
      case Then(first, next) =>
        AllowedEndsTheSame(first, c);
        AllowedEndsTheSame(next, c);
      case Try(attempt, _, handler) =>
        AllowedEndsTheSame(attempt, c);
        AllowedEndsTheSame(handler, c);
    }
  }

  // ---- the decorator and the engine's run, step by step ----

  datatype RunStatus = Success | Abandoned | Failure

  class Runtime {
    var context: Option<Context>
    var log: seq<Entry>
    var appends: nat
    const appendFails: nat -> bool

    constructor (appendFails: nat -> bool)
      ensures context == None && log == [] && appends == 0 && this.appendFails == appendFails
    {
      context, log, appends := None, [], 0;
      this.appendFails := appendFails;
    }

    /** The log has grown by those of `entries` whose append succeeded. */
    twostate predicate Logged(entries: seq<Entry>)
      reads this
    {
      && appends == old(appends) + |entries|
      && log == old(log) + Stored(entries, appendFails, old(appends))
    }

    /** An append; its failure is caught and only warned about. */
    method TryAppend(tool: string, outcome: LogOutcome)
      requires context.Some?
      modifies this`log, this`appends
      ensures Logged([Entry(context.value.workflow, tool, outcome)])
    {
      var entry := Entry(context.value.workflow, tool, outcome);
      if !appendFails(appends) {
        log := log + [entry];
      }
      assert Stored([entry][1..], appendFails, appends + 1) == [];
      appends := appends + 1;
    }

    method CallTool(tool: string, inner: Body) returns (raised: Option<Error>)
      modifies this`log, this`appends
      ensures raised == Run(Call(tool, inner), context).raised
      ensures Logged(Run(Call(tool, inner), context).log)
      decreases inner, 2
    {
      hide Stored;
      if context.None? {
        raised := Execute(inner);
        return;
      }
      if tool !in context.value.allowed {
        TryAppend(tool, LoggedDenied);
        return Some(PermissionError);
      }
      raised := Execute(inner);
      ghost var entries := Run(inner, context).log;
      if raised.None? {
        TryAppend(tool, LoggedSuccess);
        StoredAppends(entries, [Entry(context.value.workflow, tool, LoggedSuccess)], appendFails, old(appends));
      } else if raised.value != PermissionError {
        TryAppend(tool, LoggedError(raised.value));
        StoredAppends(entries, [Entry(context.value.workflow, tool, LoggedError(raised.value))],
                      appendFails, old(appends));
      }
    }

    method ExecuteThen(b: Body) returns (raised: Option<Error>)
      requires b.Then?
      modifies this`log, this`appends
      ensures raised == Run(b, context).raised && Logged(Run(b, context).log)
      decreases b, 0
    {
      hide Stored;
      raised := Execute(b.first);
      if raised.None? {
        StoredAppends(Run(b.first, context).log, Run(b.next, context).log, appendFails, old(appends));
        raised := Execute(b.next);
      }
    }

    method ExecuteTry(b: Body) returns (raised: Option<Error>)
      requires b.Try?
      modifies this`log, this`appends
      ensures raised == Run(b, context).raised && Logged(Run(b, context).log)
      decreases b, 0
    {
      hide Stored;
      raised := Execute(b.attempt);
      if raised.Some? && raised.value in b.handled {
        StoredAppends(Run(b.attempt, context).log, Run(b.handler, context).log, appendFails, old(appends));
        raised := Execute(b.handler);
      }
    }

    /** Runs a body. */
    method Execute(b: Body) returns (raised: Option<Error>)
      modifies this`log, this`appends
      ensures raised == Run(b, context).raised && Logged(Run(b, context).log)
      decreases b, 1
    {
      assert Stored([], appendFails, appends) == [];
      hide Stored;
      match b {
        case Return => raised := None;
        case Raise(e) => raised := Some(e);
        case Call(tool, inner) => raised := CallTool(tool, inner);
        case Then(_, _) => raised := ExecuteThen(b);
        case Try(_, _, _) => raised := ExecuteTry(b);
      }
    }

    /** One run of a workflow: whatever its body does, the context afterwards is
        the one from before. */
    method RunWorkflow(name: string, allowed: set<string>, b: Body) returns (status: RunStatus)
      modifies this
      ensures context == old(context)
      ensures var r := Run(b, Some(Context(name, allowed)));
              && Logged(r.log)
              && (status == Success <==> r.raised.None?)
              && (status == Abandoned <==> r.raised == Some(CancelledError))
    {
      var token := context;
      context := Some(Context(name, allowed));
      var raised := Execute(b);
      status := match raised
        case None => Success
        case Some(CancelledError) => Abandoned
        case _ => Failure;
      context := token;
    }
  }
}
