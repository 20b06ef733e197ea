/** The budgets of a scan (`BudgetLedger` in app/ops/runtime.py), charged by one caller at a time. */
module Budget {
  import opened Wrappers

  datatype Status = Active | Incomplete | Complete

  /** Used and limit: bytes of artifacts, or tokens of language models. */
  datatype Meter = Meter(used: int, limit: int)

  datatype Tool = Tool(elapsed: real, limit: real, status: Status)

  datatype Record =
    | ArtifactExceeded(requested: int, limit: int)
    | TokensExceeded(requested: int, limit: int)
    | ToolExceeded(run: int, seconds: real, allowed: real)
    | ClockExceeded(seconds: real, allowed: real)

  datatype Error = Negative | Exceeded | NotActive

  /** Whether a charge fits, and the meter after it. */
  function Charge(m: Meter, size: int): Result<Meter, Error> {
    if size < 0 then Failure(Negative)
    else if m.used + size <= m.limit then Success(m.(used := m.used + size))
    else Failure(Exceeded)
  }

  class BudgetLedger {
    const perToolSeconds: real
    const startedAt: real
    const wallClockSeconds: real
    var artifacts: Meter
    var tokens: Meter
    var tools: map<int, Tool>
    var status: Status
    var audit: seq<Record>

    /** Limits that the source refuses are required not to be given. */
    constructor (now: real, wallClockSeconds: real, artifactBytes: int, llmTokens: int, perToolSeconds: real)
      requires wallClockSeconds > 0.0 && artifactBytes >= 0 && llmTokens >= 0 && perToolSeconds > 0.0
      ensures this.perToolSeconds == perToolSeconds && startedAt == now && this.wallClockSeconds == wallClockSeconds
      ensures artifacts == Meter(0, artifactBytes) && tokens == Meter(0, llmTokens) && tools == map[]
      ensures status == Active && audit == []
    {
      this.perToolSeconds, startedAt, this.wallClockSeconds := perToolSeconds, now, wallClockSeconds;
      artifacts, tokens, tools, status, audit := Meter(0, artifactBytes), Meter(0, llmTokens), map[], Active, [];
    }

    /** `consume_artifact`: a charge that does not fit leaves the meter alone and marks the scan incomplete. */
    method ConsumeArtifact(size: int) returns (r: Result<Meter, Error>)
      modifies this`artifacts, this`status, this`audit
      ensures r == Charge(old(artifacts), size)
      ensures r == if size < 0 then Failure(Negative)
                   else if old(artifacts).used + size <= old(artifacts).limit then Success(Meter(old(artifacts).used + size, old(artifacts).limit))
                   else Failure(Exceeded)
      ensures artifacts == if r.Success? then r.value else old(artifacts)
      ensures status == if r == Failure(Exceeded) then Incomplete else old(status)
      ensures audit == old(audit) + if r == Failure(Exceeded) then [ArtifactExceeded(old(artifacts).used + size, old(artifacts).limit)] else []
    {
      if size < 0 { return Failure(Negative); }
      var requested := artifacts.used + size;
      if requested <= artifacts.limit {
        artifacts := artifacts.(used := requested);
        return Success(artifacts);
      }
      status := Incomplete;
      audit := audit + [ArtifactExceeded(requested, artifacts.limit)];
      return Failure(Exceeded);
    }

    /** `consume_llm` */
    method ConsumeTokens(size: int) returns (r: Result<Meter, Error>)
      modifies this`tokens, this`status, this`audit
      ensures r == Charge(old(tokens), size)
      ensures r == if size < 0 then Failure(Negative)
                   else if old(tokens).used + size <= old(tokens).limit then Success(Meter(old(tokens).used + size, old(tokens).limit))
                   else Failure(Exceeded)
      ensures tokens == if r.Success? then r.value else old(tokens)
      ensures status == if r == Failure(Exceeded) then Incomplete else old(status)
      ensures audit == old(audit) + if r == Failure(Exceeded) then [TokensExceeded(old(tokens).used + size, old(tokens).limit)] else []
    {
      if size < 0 { return Failure(Negative); }
      var requested := tokens.used + size;
      if requested <= tokens.limit {
        tokens := tokens.(used := requested);
        return Success(tokens);
      }
      status := Incomplete;
      audit := audit + [TokensExceeded(requested, tokens.limit)];
      return Failure(Exceeded);
    }

    /** `consume_tool_time`: the row of a run is made on its first charge, with nothing used and the limit per tool. Its
        first statement writes, so the whole charge is one transaction. */
    method ConsumeToolTime(run: int, elapsed: real) returns (r: Result<real, Error>)
      modifies this`tools, this`status, this`audit
      ensures elapsed < 0.0 ==> r == Failure(Negative) && tools == old(tools) && status == old(status) && audit == old(audit)
      ensures elapsed >= 0.0 ==>
                var row := if run in old(tools) then old(tools)[run] else Tool(0.0, perToolSeconds, Active);
                if row.elapsed + elapsed <= row.limit
                then r == Success(row.elapsed + elapsed) && tools == old(tools)[run := row.(elapsed := row.elapsed + elapsed)]
                     && status == old(status) && audit == old(audit)
                else r == Failure(Exceeded) && tools == old(tools)[run := row.(status := Incomplete)]
                     && status == Incomplete
                     && audit == old(audit) + [ToolExceeded(run, row.elapsed + elapsed, row.limit)]
    {
      if elapsed < 0.0 { return Failure(Negative); }
      if run !in tools { tools := tools[run := Tool(0.0, perToolSeconds, Active)]; }
      var row := tools[run];
      var requested := row.elapsed + elapsed;
      if requested <= row.limit {
        tools := tools[run := row.(elapsed := requested)];
        return Success(requested);
      }
      tools := tools[run := row.(status := Incomplete)];
      status := Incomplete;
      audit := audit + [ToolExceeded(run, requested, row.limit)];
      return Failure(Exceeded);
    }

    /** `check_wall_clock` */
    method CheckWallClock(now: real) returns (r: Result<real, Error>)
      modifies this`status, this`audit
      ensures r == if now - startedAt > wallClockSeconds then Failure(Exceeded) else Success(now - startedAt)
      ensures status == if r.Failure? then Incomplete else old(status)
      ensures audit == old(audit) + if r.Failure? then [ClockExceeded(now - startedAt, wallClockSeconds)] else []
    {
      var elapsed := now - startedAt;
      if elapsed > wallClockSeconds {
        status := Incomplete;
        audit := audit + [ClockExceeded(elapsed, wallClockSeconds)];
        return Failure(Exceeded);
      }
      return Success(elapsed);
    }

    /** `mark_complete`: only an active budget, and then every active tool row with it. */
    method MarkComplete() returns (error: Option<Error>)
      modifies this`status, this`tools
      ensures error == if old(status) == Active then None else Some(NotActive)
      ensures status == if error.None? then Complete else old(status)
      ensures error.Some? ==> tools == old(tools)
      ensures error.None? ==> tools.Keys == old(tools).Keys && forall run | run in tools ::
                  tools[run] == if old(tools)[run].status == Active then old(tools)[run].(status := Complete) else old(tools)[run]
    {
      if status != Active { return Some(NotActive); }
      status := Complete;
      tools := map run | run in tools :: if tools[run].status == Active then tools[run].(status := Complete) else tools[run];
      return None;
    }
  }
}
