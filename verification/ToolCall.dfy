/** The transaction envelope around one MCP tools/call: the key is claimed before
    the tool runs, the tool runs inside a savepoint, one audit row is written on
    every handled path, and a failed audit write rolls the whole request back. */
module ToolCall {
  import opened Options
  import opened Idempotency
  import JsonText

  type Data = map<string, string>

  const INVALID_PARAMS := -32602
  const INTERNAL_ERROR := -32603
  const UNAUTHORIZED := -32001
  const FORBIDDEN := -32002
  const TOOL_NOT_FOUND := -32010
  const TOOL_ERROR := -32011

  /** The outbound envelope; section 5 of the JSON-RPC 2.0 specification wants exactly one of the two. */
  datatype Reply = Reply(id: string, result: Option<string>, error: Option<int>)

  datatype AuditOutcome = Success | Error | Unauthorized
  datatype AuditRow = AuditRow(tool: string, outcome: AuditOutcome)

  datatype Tool = Tool(name: string, requiredScope: Option<string>, idempotent: bool)

  /** A `_lab_probe` field: absent or honoured, refused, or failing in an unforeseen way. */
  datatype Probe = Fine | RefusedProbe | ProbeCrash

  /** What the tool's handler does inside its savepoint; staged writes of a
      failing handler are the ones the savepoint discards. */
  datatype Handler =
    | Returns(output: Response, writes: Data)
    | RaisesAuthentication(staged: Data)
    | RaisesAuthorization(staged: Data)
    | RaisesAppError(staged: Data)
    | Crashes(staged: Data)

  datatype Principal = Principal(tenant: nat, id: nat, scopes: set<string>)

  /** Parsed tools/call params. */
  datatype Params = Params(name: string, argumentsHash: string, key: Option<string>, probe: Probe)

  /** Everything the call meets: the registry's answer, validation, the handler, the
      clocks, and whether the acquire statement, the audit write, the claim's release
      or completion, and the encoding of the output succeed. */
  datatype Circumstances = Circumstances(tool: Option<Tool>, argumentsValid: bool, handler: Handler,
                                         acquireFails: bool, auditWrites: bool, releases: bool, completes: bool,
                                         encodes: bool, start: Time, readAt: Time, doneAt: Time)

  const IDEMPOTENCY_TTL: Time := 86400

  /** Unhandled is an exception before the call was audited, Unencoded one after it. */
  datatype Ended = Replied(reply: Reply) | AuditWriteFailed | Unhandled | Unencoded

  datatype Db = Db(data: Data, audit: seq<AuditRow>, store: Store)

  function Ok(id: string, text: string): Reply { Reply(id, Some(text), None) }
  function Fail(id: string, code: int): Reply { Reply(id, None, Some(code)) }

  /** Apart from an expired holder it may have evicted, the call left every
      earlier record alone, and every record it added has a response. */
  ghost predicate ClaimsSettled(before: Store, after: Store) {
    && WellFormed(after) && before.nextId <= after.nextId
    && (forall i :: i in after.rows && i < before.nextId ==> i in before.rows && after.rows[i] == before.rows[i])
    && (forall i :: i in after.rows && i >= before.nextId ==> after.rows[i].response.Some?)
  }

  /** Exactly one audit row was added, for this tool; it says success if and only if the
      reply is a result; and an error leaves the data as it was. */
  ghost predicate Settled(before: Db, after: Db, reply: Reply, tool: string) {
    && |after.audit| == |before.audit| + 1 && before.audit <= after.audit
    && after.audit[|before.audit|].tool == tool
    && (after.audit[|before.audit|].outcome == Success <==> reply.result.Some?)
    && (reply.error.Some? ==> after.data == before.data)
  }

  /** The tool ran and was audited as a success, but its output could not be encoded. */
  ghost predicate RanUnanswered(before: Db, after: Db, tool: string, c: Circumstances) {
    c.handler.Returns? && after.data == c.handler.writes && after.audit == before.audit + [AuditRow(tool, Success)]
  }

  /** Past every refusal: the call is ready to claim its key, or to run if it needs none. */
  ghost predicate Ready(p: Params, principal: Principal, c: Circumstances) {
    p.probe == Fine && c.tool.Some? && ScopeHeld(c.tool.value, principal) && c.argumentsValid
    && (c.tool.value.idempotent ==> KeyOf(p).Some?)
  }

  /** Nothing outside the handled paths went wrong before the call was audited. */
  ghost predicate Foreseen(p: Params, principal: Principal, c: Circumstances) {
    p.probe != ProbeCrash && !(c.acquireFails && Ready(p, principal, c) && c.tool.value.idempotent)
  }

  /** No live record holds the call's key. */
  ghost predicate KeyFree(store: Store, call: Call, readAt: Time) {
    var holder := HolderOf(store, call.scope); holder.None? || Expired(store.rows[holder.value], readAt)
  }

  /** The call reaches the tool's handler. */
  ghost predicate Executes(store: Store, p: Params, principal: Principal, c: Circumstances) {
    Ready(p, principal, c)
    && (c.tool.value.idempotent ==> KeyFree(store, CallOf(p, principal, c.tool.value), c.readAt))
  }

  /** The claim of a call that ran was neither completed nor released. */
  ghost predicate AbandonsClaim(c: Circumstances) { if c.handler.Returns? then !c.completes else !c.releases }

  predicate ScopeHeld(tool: Tool, principal: Principal) {
    tool.requiredScope.Some? ==> tool.requiredScope.value in principal.scopes
  }

  function KeyOf(p: Params): Option<string> {
    if p.key.Some? && p.key.value != "" then p.key else None
  }

  function CallOf(p: Params, principal: Principal, tool: Tool): Call
    requires KeyOf(p).Some?
  {
    Call(Scope(principal.tenant, principal.id, KeyOf(p).value), tool.name, p.argumentsHash)
  }

  /** A successful answer to a claimed call is the replayed document of a live record of
      the same call, with nothing executed, or the fresh output of a tool that ran because
      no live record held the key, stored for replay if the completion succeeded. */
  ghost predicate ReplayedOrRan(before: Db, after: Db, call: Call, c: Circumstances, text: string) {
    if !KeyFree(before.store, call, c.readAt) then
      var row := before.store.rows[HolderOf(before.store, call.scope).value];
      && SameCall(row, call) && row.response.Some? && text == JsonText.ReplayText(row.response.value)
      && after.data == before.data && after.store == before.store
    else
      && c.handler.Returns? && text == JsonText.FreshText(c.handler.output) && after.data == c.handler.writes
      && before.store.nextId in after.store.rows
      && after.store.rows[before.store.nextId]
         == if c.completes then Row(call, Some(c.handler.output), c.start, Some(c.doneAt + IDEMPOTENCY_TTL))
            else Row(call, None, c.start, Some(c.start + IDEMPOTENCY_TTL))
  }

  /** The table after acquire gave the call its claim. */
  ghost predicate Claimed(before: Store, claimed: Store, call: Call, c: Circumstances) {
    var holder := HolderOf(before, call.scope);
    && KeyFree(before, call, c.readAt) && WellFormed(claimed)
    && claimed.rows == (if holder.Some? then Deleted(before, holder.value) else before)
                         .rows[before.nextId := Row(call, None, c.start, Deadline(c.start, Some(IDEMPOTENCY_TTL)))]
  }

  /** The table after the claim's own last write, if it succeeded. */
  ghost function ClaimAfter(claimed: Store, id: Id, c: Circumstances): Store {
    if c.handler.Returns? then
      if c.completes then Idempotency.Answered(claimed, id, c.handler.output, Some(c.doneAt + IDEMPOTENCY_TTL))
      else claimed
    else if c.releases then Deleted(claimed, id) else claimed
  }

  /** What became of the call's claim: left without a response exactly when it was made and its
      own last write failed, and otherwise stored with the tool's document or gone. */
  ghost predicate ClaimEnded(before: Store, after: Store, call: Call, c: Circumstances) {
    && WellFormed(after)
    && (ClaimsSettled(before, after) <==> !(KeyFree(before, call, c.readAt) && AbandonsClaim(c)))
    && (KeyFree(before, call, c.readAt) && c.handler.Returns? ==>
          && before.nextId in after.rows
          && after.rows[before.nextId]
             == if c.completes then Row(call, Some(c.handler.output), c.start, Some(c.doneAt + 86400))
                else Row(call, None, c.start, Some(c.start + 86400)))
  }

  lemma ClaimEnds(before: Store, claimed: Store, after: Store, call: Call, c: Circumstances)
    requires WellFormed(before) && Claimed(before, claimed, call, c) && after == ClaimAfter(claimed, before.nextId, c)
    ensures ClaimEnded(before, after, call, c)
  {
    ClaimIsTheOnlyNewRow(before, claimed, call, c);
    EndKeepsWellFormed(claimed, before.nextId, c);
    if AbandonsClaim(c) { assert before.nextId in after.rows && after.rows[before.nextId].response.None?; }
  }

  lemma ClaimIsTheOnlyNewRow(before: Store, claimed: Store, call: Call, c: Circumstances)
    requires WellFormed(before) && Claimed(before, claimed, call, c)
    ensures before.nextId in claimed.rows && before.nextId < claimed.nextId
    ensures forall i :: i in claimed.rows && i != before.nextId ==>
      i < before.nextId && i in before.rows && claimed.rows[i] == before.rows[i]
  {
  }

  lemma EndKeepsWellFormed(claimed: Store, id: Id, c: Circumstances)
    requires WellFormed(claimed)
    ensures WellFormed(ClaimAfter(claimed, id, c)) && ClaimAfter(claimed, id, c).nextId == claimed.nextId
  {
  }

  // ----- what each way through the call answers, audits and writes -----

  ghost predicate FailedAs(before: Db, after: Db, id: string, name: string, e: Ended, outcome: AuditOutcome,
                           code: int) {
    && e == Replied(Reply(id, None, Some(code))) && after.data == before.data
    && after.audit == before.audit + [AuditRow(name, outcome)]
  }

  ghost predicate SucceededAs(before: Db, after: Db, id: string, name: string, e: Ended, data: Data, text: string) {
    && e == Replied(Reply(id, Some(text), None)) && after.data == data
    && after.audit == before.audit + [AuditRow(name, Success)]
  }

  /** The tool ran: its output, or the code and the audit outcome of each kind of failure. */
  ghost predicate RanAs(before: Db, after: Db, id: string, name: string, c: Circumstances, e: Ended) {
    match c.handler
    case Returns(output, writes) =>
      if c.encodes then SucceededAs(before, after, id, name, e, writes, JsonText.FreshText(output))
      else e == Unencoded && RanUnanswered(before, after, name, c)
    case RaisesAuthentication(_) => FailedAs(before, after, id, name, e, Unauthorized, -32001)
    case RaisesAuthorization(_) => FailedAs(before, after, id, name, e, Unauthorized, -32002)
    case RaisesAppError(_) => FailedAs(before, after, id, name, e, Error, -32011)
    case Crashes(_) => FailedAs(before, after, id, name, e, Error, -32603)
  }

  /** A live record of the key decides: another call or one still unanswered is refused, the
      same call replays its document. Otherwise the tool runs. */
  ghost predicate ClaimedAs(before: Db, after: Db, id: string, name: string, call: Call, c: Circumstances, e: Ended) {
    var holder := HolderOf(before.store, call.scope);
    if holder.None? then RanAs(before, after, id, name, c, e)
    else
      var row := before.store.rows[holder.value];
      if row.expiresAt.Some? && row.expiresAt.value < c.readAt then RanAs(before, after, id, name, c, e)
      else if row.call.tool != call.tool || row.call.argumentsHash != call.argumentsHash || row.response.None?
      then FailedAs(before, after, id, name, e, Error, -32011) && after.store == before.store
      else SucceededAs(before, after, id, name, e, before.data, JsonText.ReplayText(row.response.value))
           && after.store == before.store
  }

  /** The refusals in their order, each with its code and audit outcome and nothing else
      changed; a call that passes them all claims its key if it needs one, and runs. */
  ghost predicate AnsweredAs(before: Db, after: Db, id: string, p: Params, principal: Principal, c: Circumstances,
                             e: Ended) {
    if p.probe == RefusedProbe then FailedAs(before, after, id, p.name, e, Error, -32602) && after.store == before.store
    else if c.tool.None? then FailedAs(before, after, id, p.name, e, Error, -32010) && after.store == before.store
    else
      var tool := c.tool.value;
      if tool.requiredScope.Some? && tool.requiredScope.value !in principal.scopes
      then FailedAs(before, after, id, p.name, e, Unauthorized, -32002) && after.store == before.store
      else if !c.argumentsValid || (tool.idempotent && (p.key.None? || p.key.value == ""))
      then FailedAs(before, after, id, p.name, e, Error, -32602) && after.store == before.store
      else if !tool.idempotent then RanAs(before, after, id, p.name, c, e) && after.store == before.store
      else
        var scope := Scope(principal.tenant, principal.id, p.key.value);
        ClaimedAs(before, after, id, p.name, Call(scope, tool.name, p.argumentsHash), c, e)
  }

  lemma RanSettles(before: Db, after: Db, id: string, name: string, c: Circumstances, e: Ended)
    requires RanAs(before, after, id, name, c, e)
    ensures e.Replied? || e.Unencoded?
    ensures e.Unencoded? <==> c.handler.Returns? && !c.encodes
    ensures e.Replied? ==> Replies(before, after, id, name, e)
    ensures e.Unencoded? ==> RanUnanswered(before, after, name, c)
  {
  }

  class Server {
    var data: Data
    var audit: seq<AuditRow>
    const records: RecordTable

    constructor ()
      ensures records.Valid() && data == map[] && audit == [] && fresh(records)
    {
      data, audit := map[], [];
      records := new RecordTable();
    }

    ghost function View(): Db reads this, records { Db(data, audit, records.store) }

    /** Write the audit row, or report that it could not be written. */
    method Audit(tool: string, outcome: AuditOutcome, c: Circumstances) returns (written: bool)
      modifies this`audit
      ensures written == c.auditWrites
      ensures audit == if written then old(audit) + [AuditRow(tool, outcome)] else old(audit)
    {
      written := c.auditWrites;
      if written {
        audit := audit + [AuditRow(tool, outcome)];
      }
    }

    /** Audit a refusal and answer with its error code. */
    method Refuse(id: string, tool: string, outcome: AuditOutcome, code: int, c: Circumstances) returns (e: Ended)
      requires outcome != Success
      modifies this`audit
      ensures e == if c.auditWrites then Replied(Fail(id, code)) else AuditWriteFailed
      ensures audit == if c.auditWrites then old(audit) + [AuditRow(tool, outcome)] else old(audit)
    {
      var written := Audit(tool, outcome, c);
      e := if written then Replied(Fail(id, code)) else AuditWriteFailed;
    }

    method RunToolCall(id: string, params: Option<Params>, principal: Principal, c: Circumstances) returns (e: Ended)
      requires records.Valid()
      modifies this, records
      ensures records.Valid()
      ensures params.None? ==> e == Replied(Fail(id, INVALID_PARAMS)) && View() == old(View())
      ensures params.Some? ==> Ends(old(View()), View(), id, params.value, principal, c, e)
    {
      if params.None? {
        return Replied(Fail(id, INVALID_PARAMS));
      }
      var p := params.value;
      if p.probe == ProbeCrash {
        return Unhandled;
      }
      if p.probe == RefusedProbe {
        e := Refuse(id, p.name, Error, INVALID_PARAMS, c);
        return;
      }
      if c.tool.None? {
        e := Refuse(id, p.name, Error, TOOL_NOT_FOUND, c);
        return;
      }
      var tool := c.tool.value;
      if !ScopeHeld(tool, principal) {
        e := Refuse(id, p.name, Unauthorized, FORBIDDEN, c);
        return;
      }
      if !c.argumentsValid {
        e := Refuse(id, p.name, Error, INVALID_PARAMS, c);
        return;
      }
      if !tool.idempotent {
        e := Execute(id, p.name, None, c);
        return;
      }
      var key := KeyOf(p);
      if key.None? {
        e := Refuse(id, p.name, Error, INVALID_PARAMS, c);
        return;
      }
      if c.acquireFails {
        return Unhandled;
      }
      e := ClaimAndExecute(id, p.name, CallOf(p, principal, tool), c);
    }

    /** Claim the key, then replay, refuse, or run the tool under the claim. */
    method ClaimAndExecute(id: string, name: string, call: Call, c: Circumstances) returns (e: Ended)
      requires records.Valid()
      modifies this, records
      ensures records.Valid() && !e.Unhandled? && (e.AuditWriteFailed? <==> !c.auditWrites)
      ensures c.auditWrites ==> ClaimedAs(old(View()), View(), id, name, call, c, e)
      ensures c.auditWrites ==> ClaimEnded(old(records.store), records.store, call, c)
    {
      var acquired := records.Acquire(call, Some(IDEMPOTENCY_TTL), c.start, c.readAt);
      match acquired {
        case KeyReused =>
          e := Refuse(id, name, Error, TOOL_ERROR, c);
        case KeyInFlight =>
          e := Refuse(id, name, Error, TOOL_ERROR, c);
        case Replay(response, _) =>
          var written := Audit(name, Success, c);
          e := if written then Replied(Ok(id, JsonText.ReplayText(response))) else AuditWriteFailed;
        case Claim(claim) =>
          ghost var claimed := records.store;
          e := Execute(id, name, Some(claim), c);
          if c.auditWrites { ClaimEnds(old(records.store), claimed, records.store, call, c); }
      }
      assert !acquired.Claim? ==> ClaimsSettled(old(records.store), records.store);
    }

    /** Run the handler in its savepoint; on failure release the claim, on success complete it. */
    method Execute(id: string, name: string, claim: Option<Id>, c: Circumstances) returns (e: Ended)
      requires records.Valid()
      requires claim.Some? ==> claim.value in records.store.rows
      modifies this, records
      ensures records.Valid() && !e.Unhandled? && (e.AuditWriteFailed? <==> !c.auditWrites)
      ensures c.auditWrites ==> RanAs(old(View()), View(), id, name, c, e)
      ensures c.auditWrites ==>
        records.store == if claim.None? then old(records.store) else ClaimAfter(old(records.store), claim.value, c)
    {
      var savepoint := data;
      var executed := false;
      match c.handler {
        case Returns(_, writes) =>
          data := writes;
          executed := true;
        case RaisesAuthentication(staged) =>
          data := staged;
          data := savepoint;
          e := Refuse(id, name, Unauthorized, UNAUTHORIZED, c);
        case RaisesAuthorization(staged) =>
          data := staged;
          data := savepoint;
          e := Refuse(id, name, Unauthorized, FORBIDDEN, c);
        case RaisesAppError(staged) =>
          data := staged;
          data := savepoint;
          e := Refuse(id, name, Error, TOOL_ERROR, c);
        case Crashes(staged) =>
          data := staged;
          data := savepoint;
          e := Refuse(id, name, Error, INTERNAL_ERROR, c);
      }
      if !executed {
        if claim.Some? && c.releases {
          records.DeleteById(claim.value);
        }
        return;
      }
      var written := Audit(name, Success, c);
      if !written {
        return AuditWriteFailed;
      }
      if claim.Some? && c.completes {
        records.CompleteClaim(claim.value, c.handler.output, Some(c.doneAt + IDEMPOTENCY_TTL));
      }
      if !c.encodes {
        return Unencoded;
      }
      e := Replied(Ok(id, JsonText.FreshText(c.handler.output)));
    }

    /** The envelope: an audit failure escapes and the request rolls back to where
        it began; anything else is answered and commits. */
    method HandleToolsCall(id: string, params: Option<Params>, principal: Principal, c: Circumstances)
      returns (reply: Option<Reply>)
      requires records.Valid()
      modifies this, records
      ensures records.Valid()
      ensures reply.Some? ==> reply.value.id == id && (reply.value.result.Some? <==> reply.value.error.None?)
      ensures reply.None? ==> View() == old(View())
      ensures reply.None? <==> params.Some? && Foreseen(params.value, principal, c) && !c.auditWrites
      ensures params.None? ==> reply == Some(Reply(id, None, Some(-32602))) && View() == old(View())
      ensures params.Some? && !Foreseen(params.value, principal, c) ==>
        reply == Some(Reply(id, None, Some(-32603))) && View() == old(View())
      ensures reply.Some? && params.Some? && Foreseen(params.value, principal, c) ==>
        Committed(old(View()), View(), params.value, principal, c, reply.value)
    {
      var data0, audit0, store0 := data, audit, records.store;
      var e := RunToolCall(id, params, principal, c);
      if params.Some? && (e.Replied? || e.Unencoded?) {
        EndsCommitted(old(View()), View(), id, params.value, principal, c, e);
      }
      match e {
        case Replied(r) => reply := Some(r);
        case AuditWriteFailed =>
          data, audit, records.store := data0, audit0, store0;
          reply := None;
        case Unhandled => reply := Some(Fail(id, INTERNAL_ERROR));
        case Unencoded => reply := Some(Fail(id, INTERNAL_ERROR));
      }
    }
  }

  /** How a call with these parameters ends, and what it leaves behind. */
  ghost predicate Ends(before: Db, after: Db, id: string, p: Params, principal: Principal, c: Circumstances, e: Ended) {
    && (e.Unhandled? <==> !Foreseen(p, principal, c))
    && (e.Unhandled? ==> after == before)
    && (e.AuditWriteFailed? <==> Foreseen(p, principal, c) && !c.auditWrites)
    && (e.Replied? || e.Unencoded? ==>
          AnsweredAs(before, after, id, p, principal, c, e) && RecordsEnded(before.store, after.store, p, principal, c))
  }

  /** What became of the records: untouched, but for a claim that was made. */
  ghost predicate RecordsEnded(before: Store, after: Store, p: Params, principal: Principal, c: Circumstances) {
    if Ready(p, principal, c) && c.tool.value.idempotent
    then ClaimEnded(before, after, CallOf(p, principal, c.tool.value), c) else after == before
  }

  /** What a committed, audited call left behind. One audit row either way; it agrees with
      the reply, and an error leaves the data alone, exactly unless the tool ran and its
      output could not be encoded; and no response-less claim of the call survives
      exactly unless the claim's own last write failed. */
  ghost predicate Committed(before: Db, after: Db, p: Params, principal: Principal, c: Circumstances, reply: Reply) {
    var ran := Executes(before.store, p, principal, c);
    && AnsweredAs(before, after, reply.id, p, principal, c,
                  if ran && c.handler.Returns? && !c.encodes then Unencoded else Replied(reply))
    && (if ran && c.handler.Returns? && !c.encodes
        then reply.error == Some(-32603) && RanUnanswered(before, after, p.name, c)
        else Settled(before, after, reply, p.name))
    && (ClaimsSettled(before.store, after.store) <==> !(ran && c.tool.value.idempotent && AbandonsClaim(c)))
    && (reply.result.Some? ==> Ready(p, principal, c))
    && (reply.result.Some? && c.tool.value.idempotent ==>
          ReplayedOrRan(before, after, CallOf(p, principal, c.tool.value), c, reply.result.value))
  }

  lemma EndsCommitted(before: Db, after: Db, id: string, p: Params, principal: Principal, c: Circumstances, e: Ended)
    requires WellFormed(before.store) && Ends(before, after, id, p, principal, c, e) && (e.Replied? || e.Unencoded?)
    ensures var reply := if e.Replied? then e.reply else Fail(id, INTERNAL_ERROR);
      && Committed(before, after, p, principal, c, reply)
      && reply.id == id && (reply.result.Some? <==> reply.error.None?)
  {
    AnswerSettles(before, after, id, p, principal, c, e);
    RecordsSettle(before, after, id, p, principal, c, e);
  }

  /** Answered with one of result and error, and audited accordingly. */
  ghost predicate Replies(before: Db, after: Db, id: string, name: string, e: Ended) {
    && e.Replied? && e.reply.id == id && (e.reply.result.Some? <==> e.reply.error.None?)
    && Settled(before, after, e.reply, name)
  }

  lemma AnswerSettles(before: Db, after: Db, id: string, p: Params, principal: Principal, c: Circumstances, e: Ended)
    requires p.probe != ProbeCrash && AnsweredAs(before, after, id, p, principal, c, e)
    ensures var ran := Executes(before.store, p, principal, c);
      && (e == Unencoded <==> ran && c.handler.Returns? && !c.encodes)
      && (e == Unencoded ==> RanUnanswered(before, after, p.name, c))
      && (e != Unencoded ==> Replies(before, after, id, p.name, e) && (e.reply.result.Some? ==> Ready(p, principal, c)))
  {
    if !Ready(p, principal, c) {
      RefusalSettles(before, after, id, p, principal, c, e);
    } else if Executes(before.store, p, principal, c) {
      RanSettles(before, after, id, p.name, c, e);
    } else {
      ReplaySettles(before, after, id, p, principal, c, e);
    }
  }

  lemma RefusalSettles(before: Db, after: Db, id: string, p: Params, principal: Principal, c: Circumstances, e: Ended)
    requires p.probe != ProbeCrash && AnsweredAs(before, after, id, p, principal, c, e) && !Ready(p, principal, c)
    ensures Replies(before, after, id, p.name, e) && e.reply.result.None?
  {
  }

  lemma ReplaySettles(before: Db, after: Db, id: string, p: Params, principal: Principal, c: Circumstances, e: Ended)
    requires AnsweredAs(before, after, id, p, principal, c, e)
    requires Ready(p, principal, c) && !Executes(before.store, p, principal, c)
    ensures Replies(before, after, id, p.name, e)
  {
  }

  lemma RecordsSettle(before: Db, after: Db, id: string, p: Params, principal: Principal, c: Circumstances, e: Ended)
    requires WellFormed(before.store) && AnsweredAs(before, after, id, p, principal, c, e)
    requires RecordsEnded(before.store, after.store, p, principal, c)
    ensures ClaimsSettled(before.store, after.store)
       <==> !(Executes(before.store, p, principal, c) && c.tool.value.idempotent && AbandonsClaim(c))
    ensures e.Replied? && e.reply.result.Some? && Ready(p, principal, c) && c.tool.value.idempotent ==>
      ReplayedOrRan(before, after, CallOf(p, principal, c.tool.value), c, e.reply.result.value)
  {
  }

  /** After a call that completed its claim or replayed one, another tool or other
      arguments under the key are refused. */
  lemma OtherCallsAreRefused(before: Db, after: Db, call: Call, c: Circumstances, text: string, other: Call)
    requires WellFormed(before.store) && WellFormed(after.store) && ReplayedOrRan(before, after, call, c, text)
    requires other.scope == call.scope && !(other.tool == call.tool && other.argumentsHash == call.argumentsHash)
    ensures HolderOf(after.store, other.scope).Some?
    ensures Verdict(after.store.rows[HolderOf(after.store, other.scope).value], other) == KeyReused
  {
    TheHolder(before, after, call, c, text);
  }

  lemma TheHolder(before: Db, after: Db, call: Call, c: Circumstances, text: string)
    requires WellFormed(before.store) && WellFormed(after.store) && ReplayedOrRan(before, after, call, c, text)
    ensures HolderOf(after.store, call.scope)
         == if KeyFree(before.store, call, c.readAt) then Some(before.store.nextId)
            else HolderOf(before.store, call.scope)
    ensures SameCall(after.store.rows[HolderOf(after.store, call.scope).value], call)
  {
    if KeyFree(before.store, call, c.readAt) { assert after.store.rows[before.store.nextId].call.scope == call.scope; }
  }

  /** The record that held the key still holds it, unchanged and unexpired. */
  ghost predicate StillHolds(after: Store, later: Store, scope: Scope, now: Time) {
    var id := HolderOf(after, scope);
    && id.Some? && id == HolderOf(later, scope)
    && later.rows[id.value] == after.rows[id.value] && !Expired(later.rows[id.value], now)
  }

  /** The same call again, at any later time while the record the first one left still
      holds the key unexpired: it runs nothing and answers with the same document. Its text
      is the first answer's if and only if that was a replay too or the document is bare,
      which for an output object means that it has no field. */
  lemma RepeatGivesTheSameDocument(before: Db, after: Db, later: Db, end: Db, call: Call,
                                   c: Circumstances, text: string, c': Circumstances, text': string)
    requires WellFormed(before.store) && WellFormed(after.store) && WellFormed(later.store)
    requires ReplayedOrRan(before, after, call, c, text) && c.completes && ReplayedOrRan(later, end, call, c', text')
    requires StillHolds(after.store, later.store, call.scope, c'.readAt)
    ensures end.data == later.data && end.store == later.store
    ensures var stored := after.store.rows[HolderOf(after.store, call.scope).value].response;
      && stored.Some?
      && text' == JsonText.ReplayText(stored.value)
      && text == (if KeyFree(before.store, call, c.readAt) then JsonText.FreshText(stored.value) else text')
      && (text' == text <==> !KeyFree(before.store, call, c.readAt) || JsonText.Bare(stored.value))
  {
    TheHolder(before, after, call, c, text);
    JsonText.SameTextIff(after.store.rows[HolderOf(after.store, call.scope).value].response.value);
  }
}
