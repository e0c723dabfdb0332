/** The metered inference proxy: its two tables, the critical sections that touch them, and the
    handlers that run those sections in any interleaving. The budget check and the meter update of
    one request are separate sections, so other handlers may run in between.
 */
module InferenceProxy {
  import opened Options

  /** One row of the meter. Token counts come from the upstream answer and may be any integer. */
  datatype Row = Row(requests: nat, inputTokens: int, outputTokens: int,
                     upstreamErrors: nat, keyFailures: nat, lastStatus: Option<int>)

  datatype Session = Session(apiKey: string, provider: string)

  /** The meter and the registered sessions, by nonce. */
  datatype Books = Books(metrics: map<string, Row>, sessions: map<string, Session>)

  datatype Limits = Limits(metered: bool, maxRequests: int, maxTokens: int)

  /** The usage part of an answer; `None` where the count is not a number. */
  datatype Usage = Usage(prompt: Option<int>, completion: Option<int>)

  datatype Exhausted = RequestBudget | TokenBudget

  const EMPTY_ROW := Row(0, 0, 0, 0, 0, None)

  function RowOf(b: Books, nonce: string): Row {
    if nonce in b.metrics then b.metrics[nonce] else EMPTY_ROW
  }

  // ----- the critical sections

  function OverBudgetIn(l: Limits, b: Books, nonce: string): Option<Exhausted> {
    var row := RowOf(b, nonce);
    if row.requests >= l.maxRequests then Some(RequestBudget)
    else if row.inputTokens + row.outputTokens >= l.maxTokens then Some(TokenBudget)
    else None
  }

  /** A count that is not a number stops the update after what was already added. */
  function Metered(row: Row, usage: Usage): Row {
    var counted := row.(requests := row.requests + 1);
    if usage.prompt.None? then counted
    else
      var prompted := counted.(inputTokens := row.inputTokens + usage.prompt.value);
      if usage.completion.None? then prompted
      else prompted.(outputTokens := row.outputTokens + usage.completion.value)
  }

  function RecordIn(b: Books, nonce: string, usage: Usage): Books {
    if nonce == "" then b else b.(metrics := b.metrics[nonce := Metered(RowOf(b, nonce), usage)])
  }

  predicate KeyFailureCode(code: int) {
    code in {401, 402, 403, 429}
  }

  function RecordErrorIn(b: Books, nonce: string, code: int): Books {
    if nonce == "" then b
    else
      var row := RowOf(b, nonce);
      var failures := if KeyFailureCode(code) then row.keyFailures + 1 else row.keyFailures;
      b.(metrics := b.metrics[nonce :=
        row.(upstreamErrors := row.upstreamErrors + 1, keyFailures := failures, lastStatus := Some(code))])
  }

  /** Registering replaces the session and clears the meter row. */
  function RegisterIn(b: Books, nonce: string, apiKey: string, provider: string): Books {
    if nonce == "" || apiKey == "" then b
    else Books(b.metrics - {nonce}, b.sessions[nonce := Session(apiKey, provider)])
  }

  function ResetIn(b: Books, nonce: string): Books {
    if nonce == "" then Books(map[], map[]) else Books(b.metrics - {nonce}, b.sessions - {nonce})
  }

  function ProviderUrl(provider: string, apiKey: string): Option<string> {
    if provider == "chutes" then Some("https://llm.chutes.ai/v1/chat/completions")
    else if provider == "openrouter" then Some("https://openrouter.ai/api/v1/chat/completions")
    else if "cpk_" <= apiKey then Some("https://llm.chutes.ai/v1/chat/completions")
    else if "sk-or-" <= apiKey then Some("https://openrouter.ai/api/v1/chat/completions")
    else None
  }

  /** Does a request get past the session and credential tests? */
  predicate Admitted(l: Limits, b: Books, nonce: string, headerKey: string, headerProvider: string) {
    if nonce in b.sessions then
      var s := b.sessions[nonce];
      var apiKey := if s.apiKey != "" then s.apiKey else if l.metered then "" else headerKey;
      var provider := if s.provider != "" then s.provider else headerProvider;
      ProviderUrl(provider, apiKey).Some? && apiKey != ""
    else
      !l.metered && ProviderUrl(headerProvider, headerKey).Some? && headerKey != ""
  }

  /** The module-level tables of the proxy, each method one section under the lock. */
  class Tables {
    const limits: Limits
    var metrics: map<string, Row>
    var sessions: map<string, Session>

    ghost function Contents(): Books
      reads this
    {
      Books(metrics, sessions)
    }

    constructor (l: Limits)
      ensures limits == l && Contents() == Books(map[], map[])
    {
      limits := l;
      metrics := map[];
      sessions := map[];
    }

    method OverBudget(nonce: string) returns (exhausted: Option<Exhausted>)
      ensures exhausted == OverBudgetIn(limits, Contents(), nonce)
    {
      var row := if nonce in metrics then metrics[nonce] else EMPTY_ROW;
      if row.requests >= limits.maxRequests {
        return Some(RequestBudget);
      }
      var spent := row.inputTokens + row.outputTokens;
      if spent >= limits.maxTokens {
        return Some(TokenBudget);
      }
      return None;
    }

    /** The session and credential tests that come before the budget check. */
    method Admit(nonce: string, headerKey: string, headerProvider: string) returns (admitted: bool)
      ensures admitted == Admitted(limits, Contents(), nonce, headerKey, headerProvider)
    {
      var session := if nonce in sessions then Some(sessions[nonce]) else None;
      if limits.metered && session == None {
        return false;
      }
      var apiKey := if limits.metered then "" else headerKey;
      var provider := headerProvider;
      if session.Some? {
        if session.value.apiKey != "" {
          apiKey := session.value.apiKey;
        }
        if session.value.provider != "" {
          provider := session.value.provider;
        }
      }
      admitted := ProviderUrl(provider, apiKey).Some? && apiKey != "";
    }

    method Record(nonce: string, usage: Usage)
      modifies this
      ensures Contents() == RecordIn(old(Contents()), nonce, usage)
    {
      if nonce == "" {
        return;
      }
      if nonce !in metrics {
        metrics := metrics[nonce := EMPTY_ROW];
      }
      var row := metrics[nonce];
      row := row.(requests := row.requests + 1);
      if usage.prompt.Some? {
        row := row.(inputTokens := row.inputTokens + usage.prompt.value);
        if usage.completion.Some? {
          row := row.(outputTokens := row.outputTokens + usage.completion.value);
        }
      }
      metrics := metrics[nonce := row];
    }

    method RecordUpstreamError(nonce: string, code: int)
      modifies this
      ensures Contents() == RecordErrorIn(old(Contents()), nonce, code)
    {
      if nonce == "" {
        return;
      }
      if nonce !in metrics {
        metrics := metrics[nonce := EMPTY_ROW];
      }
      var row := metrics[nonce];
      row := row.(upstreamErrors := row.upstreamErrors + 1);
      if KeyFailureCode(code) {
        row := row.(keyFailures := row.keyFailures + 1);
      }
      metrics := metrics[nonce := row.(lastStatus := Some(code))];
    }

    method Register(nonce: string, apiKey: string, provider: string) returns (ok: bool)
      modifies this
      ensures ok <==> nonce != "" && apiKey != ""
      ensures Contents() == RegisterIn(old(Contents()), nonce, apiKey, provider)
    {
      if nonce == "" || apiKey == "" {
        return false;
      }
      sessions := sessions[nonce := Session(apiKey, provider)];
      metrics := metrics - {nonce};
      ok := true;
    }

    method Reset(nonce: string)
      modifies this
      ensures Contents() == ResetIn(old(Contents()), nonce)
    {
      if nonce != "" {
        metrics := metrics - {nonce};
        sessions := sessions - {nonce};
      } else {
        metrics := map[];
        sessions := map[];
      }
    }
  }

  // ----- the handlers

  /** Where a request handler is between two critical sections. */
  datatype Stage = Waiting(nonce: string) | Forwarded(nonce: string)

  datatype Proxy = Proxy(books: Books, handlers: map<nat, Stage>)

  datatype Event =
    | Register(nonce: string, apiKey: string, provider: string)
    | Reset(nonce: string)
    | Arrive(id: nat, nonce: string, headerKey: string, headerProvider: string)
    | Check(id: nat)
    | Answer(id: nat, usage: Usage)
    | UpstreamError(id: nat, code: int)
    | Fail(id: nat)

  const IDLE := Proxy(Books(map[], map[]), map[])

  /** The nonce of handler `id` when its request has passed the budget check. */
  predicate InFlight(p: Proxy, id: nat, nonce: string) {
    id in p.handlers && p.handlers[id] == Forwarded(nonce)
  }

  /** One critical section of one handler; an event whose handler is elsewhere does nothing. */
  function Step(l: Limits, p: Proxy, e: Event): Proxy {
    match e
    case Register(nonce, apiKey, provider) => p.(books := RegisterIn(p.books, nonce, apiKey, provider))
    case Reset(nonce) => p.(books := ResetIn(p.books, nonce))
    case Arrive(id, nonce, headerKey, headerProvider) =>
      if id !in p.handlers && Admitted(l, p.books, nonce, headerKey, headerProvider)
      then p.(handlers := p.handlers[id := Waiting(nonce)]) else p
    case Check(id) =>
      if id in p.handlers && p.handlers[id].Waiting? then
        var nonce := p.handlers[id].nonce;
        if OverBudgetIn(l, p.books, nonce).Some? then p.(handlers := p.handlers - {id})
        else p.(handlers := p.handlers[id := Forwarded(nonce)])
      else p
    case Answer(id, usage) =>
      if id in p.handlers && p.handlers[id].Forwarded?
      then Proxy(RecordIn(p.books, p.handlers[id].nonce, usage), p.handlers - {id}) else p
    case UpstreamError(id, code) =>
      if id in p.handlers && p.handlers[id].Forwarded?
      then Proxy(RecordErrorIn(p.books, p.handlers[id].nonce, code), p.handlers - {id}) else p
    case Fail(id) =>
      if id in p.handlers && p.handlers[id].Forwarded? then p.(handlers := p.handlers - {id}) else p
  }

  function Run(l: Limits, p: Proxy, es: seq<Event>): Proxy {
    if es == [] then p else Step(l, Run(l, p, es[..|es| - 1]), es[|es| - 1])
  }

  function Requests(p: Proxy, nonce: string): nat {
    RowOf(p.books, nonce).requests
  }

  function Spent(p: Proxy, nonce: string): int {
    RowOf(p.books, nonce).inputTokens + RowOf(p.books, nonce).outputTokens
  }

  function Past(p: Proxy, nonce: string): set<nat> {
    set id | id in p.handlers && p.handlers[id] == Forwarded(nonce)
  }

  /** Which handler moves for `nonce` in a step. */
  predicate Moves(p: Proxy, e: Event, nonce: string) {
    e.Answer? && InFlight(p, e.id, nonce)
  }

  /** What one step does to the requests of a nonce that are past the check. */
  lemma StepPast(l: Limits, p: Proxy, e: Event, nonce: string)
    ensures var before, after := Past(p, nonce), Past(Step(l, p, e), nonce);
            match e
            case Check(id) =>
              if id in p.handlers && p.handlers[id] == Waiting(nonce) && OverBudgetIn(l, p.books, nonce).None?
              then after == before + {id} && id !in before else after == before
            case Answer(id, _) => after == before - {id}
            case UpstreamError(id, _) => after == before - {id}
            case Fail(id) => after == before - {id}
            case _ => after == before
  {
  }

  /** What one step does to the request count of a nonce. */
  lemma StepRequests(l: Limits, p: Proxy, e: Event, nonce: string)
    requires nonce != ""
    ensures var before, after := Requests(p, nonce), Requests(Step(l, p, e), nonce);
            || after == (if Moves(p, e, nonce) then before + 1 else before)
            || (after == 0 && (e.Register? || e.Reset?))
  {
  }

  lemma StepInFlight(l: Limits, p: Proxy, e: Event, nonce: string)
    ensures var before, after := |Past(p, nonce)|, |Past(Step(l, p, e), nonce)|;
            && (Moves(p, e, nonce) ==> after == before - 1)
            && (after > before ==> after == before + 1 && e.Check? && OverBudgetIn(l, p.books, nonce).None?)
            && (e.Register? || e.Reset? ==> after == before)
  {
    StepPast(l, p, e, nonce);
  }

  /** The most requests a nonce can be metered for with `c` at once past the check. */
  function RequestBound(l: Limits, c: nat): nat {
    if l.maxRequests + c <= 1 then 0 else l.maxRequests + c - 1
  }

  /** At no point of the run are more than `c` requests of the nonce past the check. */
  ghost predicate AtMostPast(l: Limits, es: seq<Event>, nonce: string, c: nat) {
    && |Past(Run(l, IDLE, es), nonce)| <= c
    && (es != [] ==> AtMostPast(l, es[..|es| - 1], nonce, c))
  }

  /** Over every interleaving, metered requests and requests past the check together stay within
      the bound, so the meter never passes `maxRequests + c - 1`, whatever sessions are registered
      again or reset in between. */
  lemma {:induction false} RequestsBounded(l: Limits, es: seq<Event>, nonce: string, c: nat)
    requires nonce != ""
    requires AtMostPast(l, es, nonce, c)
    ensures Requests(Run(l, IDLE, es), nonce) + |Past(Run(l, IDLE, es), nonce)| <= RequestBound(l, c)
    ensures l.maxRequests <= 0 ==> |Past(Run(l, IDLE, es), nonce)| == 0
  {
    if es == [] {
      assert Past(IDLE, nonce) == {};
    } else {
      RequestsBounded(l, es[..|es| - 1], nonce, c);
      var p, e := Run(l, IDLE, es[..|es| - 1]), es[|es| - 1];
      hide Step;
      StepInFlight(l, p, e, nonce);
      StepRequests(l, p, e, nonce);
    }
  }

  // ----- the bound is reached

  const FREE := Usage(Some(0), Some(0))

  /** The nonce has a usable session, `k` requests on its meter and no tokens. */
  ghost predicate Ready(p: Proxy, nonce: string, k: nat) {
    && nonce in p.books.sessions
    && p.books.sessions[nonce] == Session("cpk_", "chutes")
    && Requests(p, nonce) == k
    && Spent(p, nonce) == 0
  }

  lemma Extend(l: Limits, es: seq<Event>, e: Event, nonce: string, c: nat) returns (longer: seq<Event>)
    requires AtMostPast(l, es, nonce, c)
    requires e.Check? ==> |Past(Run(l, IDLE, es), nonce)| < c
    ensures Run(l, IDLE, longer) == Step(l, Run(l, IDLE, es), e)
    ensures AtMostPast(l, longer, nonce, c)
    ensures |Past(Run(l, IDLE, longer), nonce)| <= |Past(Run(l, IDLE, es), nonce)| + (if e.Check? then 1 else 0)
    ensures Moves(Run(l, IDLE, es), e, nonce) ==> |Past(Run(l, IDLE, longer), nonce)| < |Past(Run(l, IDLE, es), nonce)|
  {
    longer := es + [e];
    assert longer[..|es|] == es;
    StepInFlight(l, Run(l, IDLE, es), e, nonce);
  }

  lemma Arrives(l: Limits, p: Proxy, id: nat, nonce: string, k: nat)
    requires Ready(p, nonce, k) && id !in p.handlers
    ensures Step(l, p, Arrive(id, nonce, "", "")) == p.(handlers := p.handlers[id := Waiting(nonce)])
  {
  }

  lemma Passes(l: Limits, p: Proxy, id: nat, nonce: string, k: nat)
    requires Ready(p, nonce, k) && k < l.maxRequests && l.maxTokens >= 1
    requires id in p.handlers && p.handlers[id] == Waiting(nonce)
    ensures Step(l, p, Check(id)) == p.(handlers := p.handlers[id := Forwarded(nonce)])
  {
  }

  lemma Answered(l: Limits, p: Proxy, id: nat, nonce: string, k: nat)
    requires nonce != ""
    requires Ready(p, nonce, k) && InFlight(p, id, nonce)
    ensures Ready(Step(l, p, Answer(id, FREE)), nonce, k + 1)
    ensures Step(l, p, Answer(id, FREE)).handlers == p.handlers - {id}
    ensures Moves(p, Answer(id, FREE), nonce)
  {
  }

  /** `n` handlers past the check. */
  function Group(n: nat, nonce: string): map<nat, Stage> {
    if n == 0 then map[] else Group(n - 1, nonce)[n - 1 := Forwarded(nonce)]
  }

  lemma {:induction false} GroupIds(n: nat, nonce: string)
    ensures forall id :: id in Group(n, nonce) ==> id < n
  {
    if n > 0 {
      GroupIds(n - 1, nonce);
    }
  }

  lemma GroupSteps(n: nat, nonce: string)
    ensures n !in Group(n, nonce)
    ensures Group(n, nonce)[n := Waiting(nonce)][n := Forwarded(nonce)] == Group(n + 1, nonce)
    ensures n in Group(n + 1, nonce) && Group(n + 1, nonce)[n] == Forwarded(nonce)
    ensures Group(n + 1, nonce) - {n} == Group(n, nonce)
  {
    GroupIds(n, nonce);
  }

  /** After `es`, `k` requests of the nonce are on the meter, `n` are past the check, and there
      were never more than `c`. */
  ghost predicate Reached(l: Limits, es: seq<Event>, nonce: string, k: nat, n: nat, c: nat) {
    && AtMostPast(l, es, nonce, c)
    && Ready(Run(l, IDLE, es), nonce, k)
    && Run(l, IDLE, es).handlers == Group(n, nonce)
    && |Past(Run(l, IDLE, es), nonce)| <= n
  }

  lemma Opening(l: Limits, nonce: string, c: nat) returns (es: seq<Event>)
    requires nonce != ""
    ensures Reached(l, es, nonce, 0, 0, c)
  {
    assert Past(IDLE, nonce) == {};
    es := Extend(l, [], Register(nonce, "cpk_", "chutes"), nonce, c);
  }

  lemma Join(l: Limits, es: seq<Event>, nonce: string, k: nat, n: nat, c: nat) returns (longer: seq<Event>)
    requires k < l.maxRequests && l.maxTokens >= 1 && n < c
    requires Reached(l, es, nonce, k, n, c)
    ensures Reached(l, longer, nonce, k, n + 1, c)
  {
    hide Step, Run, Past, AtMostPast, Group;
    GroupSteps(n, nonce);
    Arrives(l, Run(l, IDLE, es), n, nonce, k);
    longer := Extend(l, es, Arrive(n, nonce, "", ""), nonce, c);
    Passes(l, Run(l, IDLE, longer), n, nonce, k);
    longer := Extend(l, longer, Check(n), nonce, c);
  }

  lemma Leave(l: Limits, es: seq<Event>, nonce: string, k: nat, n: nat, c: nat) returns (longer: seq<Event>)
    requires nonce != ""
    requires Reached(l, es, nonce, k, n + 1, c)
    ensures Reached(l, longer, nonce, k + 1, n, c)
  {
    hide Step, Run, Past, AtMostPast, Ready, Moves, Group;
    GroupSteps(n, nonce);
    Answered(l, Run(l, IDLE, es), n, nonce, k);
    longer := Extend(l, es, Answer(n, FREE), nonce, c);
  }

  lemma {:induction false} ServedOneByOne(l: Limits, nonce: string, k: nat, c: nat) returns (es: seq<Event>)
    requires nonce != "" && c >= 1
    requires k < l.maxRequests && l.maxTokens >= 1
    ensures Reached(l, es, nonce, k, 0, c)
  {
    hide Reached;
    if k == 0 {
      es := Opening(l, nonce, c);
    } else {
      es := ServedOneByOne(l, nonce, k - 1, c);
      es := Join(l, es, nonce, k - 1, 0, c);
      es := Leave(l, es, nonce, k - 1, 0, c);
    }
  }

  lemma {:induction false} Gathered(l: Limits, nonce: string, n: nat, c: nat) returns (es: seq<Event>)
    requires nonce != "" && c >= 1 && n <= c
    requires l.maxRequests >= 1 && l.maxTokens >= 1
    ensures Reached(l, es, nonce, l.maxRequests - 1, n, c)
  {
    hide Reached;
    if n == 0 {
      es := ServedOneByOne(l, nonce, l.maxRequests - 1, c);
    } else {
      es := Gathered(l, nonce, n - 1, c);
      es := Join(l, es, nonce, l.maxRequests - 1, n - 1, c);
    }
  }

  lemma {:induction false} Drained(l: Limits, es: seq<Event>, nonce: string, k: nat, n: nat, c: nat)
    returns (longer: seq<Event>)
    requires nonce != ""
    requires Reached(l, es, nonce, k, n, c)
    ensures Reached(l, longer, nonce, k + n, 0, c)
    decreases n
  {
    hide Reached;
    if n == 0 {
      longer := es;
    } else {
      longer := Leave(l, es, nonce, k, n - 1, c);
      longer := Drained(l, longer, nonce, k + 1, n - 1, c);
    }
  }

  /** Where `c` handlers may overlap the bound is reached: that many requests really get through.
      All but one of the allowed requests are served one by one, then `c` handlers pass the check
      before any of them records. */
  lemma RequestBoundReached(l: Limits, nonce: string, c: nat) returns (es: seq<Event>)
    requires nonce != "" && c >= 1
    requires l.maxRequests >= 1 && l.maxTokens >= 1
    ensures AtMostPast(l, es, nonce, c)
    ensures Requests(Run(l, IDLE, es), nonce) == RequestBound(l, c) == l.maxRequests + c - 1
  {
    es := Gathered(l, nonce, c, c);
    es := Drained(l, es, nonce, l.maxRequests - 1, c, c);
    hide Run, AtMostPast, Group, Past;
  }

  // ----- the token budget

  /** What an answer adds to the token count. */
  function Tokens(usage: Usage): int {
    if usage.prompt.None? then 0
    else if usage.completion.None? then usage.prompt.value
    else usage.prompt.value + usage.completion.value
  }

  /** No answer reports more than `t` tokens. */
  ghost predicate Frugal(es: seq<Event>, t: nat) {
    forall i :: 0 <= i < |es| && es[i].Answer? ==> Tokens(es[i].usage) <= t
  }

  function Times(t: nat, k: nat): nat {
    if k == 0 then 0 else t + Times(t, k - 1)
  }

  lemma {:induction false} TimesMonotone(t: nat, j: nat, k: nat)
    requires j <= k
    ensures Times(t, j) <= Times(t, k)
  {
    if j < k {
      TimesMonotone(t, j, k - 1);
    }
  }

  lemma StepSpent(l: Limits, p: Proxy, e: Event, nonce: string)
    requires nonce != ""
    ensures var before, after := Spent(p, nonce), Spent(Step(l, p, e), nonce);
            || after == (if Moves(p, e, nonce) then before + Tokens(e.usage) else before)
            || (after == 0 && (e.Register? || e.Reset?))
  {
  }

  function TokenBound(l: Limits, c: nat, t: nat): int {
    if l.maxTokens <= 0 then 0 else l.maxTokens - 1 + Times(t, c)
  }

  /** Where no answer costs more than `t` tokens, the spent tokens stay below the budget plus what
      the requests past the check can cost. */
  lemma {:induction false} TokensBounded(l: Limits, es: seq<Event>, nonce: string, c: nat, t: nat)
    requires nonce != ""
    requires AtMostPast(l, es, nonce, c)
    requires Frugal(es, t)
    ensures Spent(Run(l, IDLE, es), nonce) + Times(t, |Past(Run(l, IDLE, es), nonce)|) <= TokenBound(l, c, t)
    ensures l.maxTokens <= 0 ==> |Past(Run(l, IDLE, es), nonce)| == 0 && Spent(Run(l, IDLE, es), nonce) == 0
  {
    if es == [] {
      assert Past(IDLE, nonce) == {};
    } else {
      TokensBounded(l, es[..|es| - 1], nonce, c, t);
      var p, e := Run(l, IDLE, es[..|es| - 1]), es[|es| - 1];
      var before, after := |Past(p, nonce)|, |Past(Step(l, p, e), nonce)|;
      hide Step;
      StepInFlight(l, p, e, nonce);
      StepSpent(l, p, e, nonce);
      TimesMonotone(t, after, c);
      if after < before {
        TimesMonotone(t, after, before);
      }
    }
  }

  // ----- one nonce does not disturb another

  /** The nonce an event acts on; a check or an outcome acts on its handler's nonce. */
  function ActsOn(p: Proxy, e: Event): string {
    match e
    case Register(nonce, _, _) => nonce
    case Reset(nonce) => nonce
    case Arrive(_, nonce, _, _) => nonce
    case _ => if e.id in p.handlers then p.handlers[e.id].nonce else ""
  }

  /** A run on other nonces leaves a nonce's meter row and session as they were. */
  ghost predicate Elsewhere(l: Limits, p: Proxy, es: seq<Event>, nonce: string) {
    es == []
    || var q, e := Run(l, p, es[..|es| - 1]), es[|es| - 1];
       && Elsewhere(l, p, es[..|es| - 1], nonce)
       && ActsOn(q, e) != nonce
       && e != Reset("")
  }

  lemma {:induction false} Isolation(l: Limits, p: Proxy, es: seq<Event>, nonce: string)
    requires Elsewhere(l, p, es, nonce)
    ensures var q := Run(l, p, es);
            && RowOf(q.books, nonce) == RowOf(p.books, nonce)
            && (nonce in q.books.metrics <==> nonce in p.books.metrics)
            && (nonce in q.books.sessions <==> nonce in p.books.sessions)
            && (nonce in p.books.sessions ==> q.books.sessions[nonce] == p.books.sessions[nonce])
            && Past(q, nonce) == Past(p, nonce)
  {
    if es != [] {
      Isolation(l, p, es[..|es| - 1], nonce);
    }
  }

  // ----- what every run keeps

  /** Key failures are upstream errors, nothing is metered without a nonce, and under metering
      every request that gets past the session test carries one. */
  ghost predicate Kept(l: Limits, p: Proxy) {
    && (forall n :: n in p.books.metrics ==> p.books.metrics[n].keyFailures <= p.books.metrics[n].upstreamErrors)
    && "" !in p.books.metrics
    && "" !in p.books.sessions
    && (l.metered ==> forall id :: id in p.handlers ==> p.handlers[id].nonce != "")
  }

  lemma {:induction false} KeptByEveryRun(l: Limits, es: seq<Event>)
    ensures Kept(l, Run(l, IDLE, es))
  {
    if es != [] {
      KeptByEveryRun(l, es[..|es| - 1]);
      StepKeeps(l, Run(l, IDLE, es[..|es| - 1]), es[|es| - 1]);
    }
  }

  lemma StepKeeps(l: Limits, p: Proxy, e: Event)
    requires Kept(l, p)
    ensures Kept(l, Step(l, p, e))
  {
  }

  /** Under metering every answered request is counted: no request is forwarded off the meter. */
  lemma EveryAnswerIsCounted(l: Limits, es: seq<Event>, id: nat, usage: Usage)
    requires l.metered
    requires var p := Run(l, IDLE, es); id in p.handlers && p.handlers[id].Forwarded?
    ensures var p := Run(l, IDLE, es);
            var nonce := p.handlers[id].nonce;
            Requests(Step(l, p, Answer(id, usage)), nonce) == Requests(p, nonce) + 1
  {
    KeptByEveryRun(l, es);
  }

  /** Neither registered again nor reset. */
  predicate Renews(e: Event, nonce: string) {
    (e.Register? && e.nonce == nonce) || (e.Reset? && (e.nonce == nonce || e.nonce == ""))
  }

  /** A spent request budget stays spent until the nonce is registered again or reset: no further
      request of it passes the check. */
  lemma {:induction false} ExhaustionIsFinal(l: Limits, p: Proxy, es: seq<Event>, nonce: string)
    requires nonce != ""
    requires Requests(p, nonce) >= l.maxRequests
    requires forall i :: 0 <= i < |es| ==> !Renews(es[i], nonce)
    ensures Requests(Run(l, p, es), nonce) >= l.maxRequests
    ensures Past(Run(l, p, es), nonce) <= Past(p, nonce)
  {
    if es != [] {
      var q, e := Run(l, p, es[..|es| - 1]), es[|es| - 1];
      ExhaustionIsFinal(l, p, es[..|es| - 1], nonce);
      StepPast(l, q, e, nonce);
      assert !Renews(e, nonce);
    }
  }
}
