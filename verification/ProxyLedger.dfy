/** The proxy's meter as a ledger: what gets a request in, what gets it past the budget check, what the row of a
    nonce adds up to, and what registering a nonce again or resetting it starts over. */
module ProxyLedger {
  import opened InferenceProxy
  import opened Options

  // ----- what gets a request in

  /** Some endpoint takes the key: its provider is one of the two known, or the key carries the prefix of one. */
  predicate Usable(provider: string, apiKey: string) {
    apiKey != "" && (provider == "chutes" || provider == "openrouter" || "cpk_" <= apiKey || "sk-or-" <= apiKey)
  }

  /** Under metering only a registered nonce gets in, and only on the key of its session. Without metering the
      request's own key stands in for a session's that is missing or empty. In both the session's provider goes
      before the one the request names. */
  lemma AdmittedExactly(l: Limits, b: Books, nonce: string, headerKey: string, headerProvider: string)
    ensures nonce !in b.sessions ==>
              (Admitted(l, b, nonce, headerKey, headerProvider) <==> !l.metered && Usable(headerProvider, headerKey))
    ensures nonce in b.sessions ==>
              var s := b.sessions[nonce];
              var provider := if s.provider == "" then headerProvider else s.provider;
              && (s.apiKey != "" ==>
                    (Admitted(l, b, nonce, headerKey, headerProvider) <==> Usable(provider, s.apiKey)))
              && (s.apiKey == "" ==>
                    (Admitted(l, b, nonce, headerKey, headerProvider) <==> !l.metered && Usable(provider, headerKey)))
  {
  }

  /** A known provider names the endpoint; otherwise the prefix of the key does. */
  lemma EndpointExactly(provider: string, apiKey: string)
    ensures var url := ProviderUrl(provider, apiKey);
            && (url == Some("https://llm.chutes.ai/v1/chat/completions")
                <==> provider == "chutes" || (provider != "openrouter" && "cpk_" <= apiKey))
            && (url == Some("https://openrouter.ai/api/v1/chat/completions")
                <==> provider == "openrouter"
                     || (provider != "chutes" && "sk-or-" <= apiKey && !("cpk_" <= apiKey)))
            && (url == None
                <==> provider !in {"chutes", "openrouter"} && !("cpk_" <= apiKey) && !("sk-or-" <= apiKey))
  {
    assert "https://llm.chutes.ai/v1/chat/completions"[8] == 'l';
    assert "https://openrouter.ai/api/v1/chat/completions"[8] == 'o';
  }

  /** A waiting request passes the check exactly while its nonce has requests and tokens left; otherwise it is
      turned away. */
  lemma CheckExactly(l: Limits, p: Proxy, id: nat, nonce: string)
    requires id in p.handlers && p.handlers[id] == Waiting(nonce)
    ensures var q := Step(l, p, Check(id));
            && (InFlight(q, id, nonce) <==> Requests(p, nonce) < l.maxRequests && Spent(p, nonce) < l.maxTokens)
            && (!InFlight(q, id, nonce) ==> id !in q.handlers)
            && q.books == p.books
  {
  }

  // ----- what the row adds up to

  /** The usages of the answers that reach requests of the nonce during a run, in order. */
  function Answers(l: Limits, p: Proxy, es: seq<Event>, nonce: string): seq<Usage> {
    if es == [] then []
    else
      var q, e := Run(l, p, es[..|es| - 1]), es[|es| - 1];
      Answers(l, p, es[..|es| - 1], nonce) + (if e.Answer? && InFlight(q, e.id, nonce) then [e.usage] else [])
  }

  /** The codes of the upstream errors that reach requests of the nonce during a run, in order. */
  function Errors(l: Limits, p: Proxy, es: seq<Event>, nonce: string): seq<int> {
    if es == [] then []
    else
      var q, e := Run(l, p, es[..|es| - 1]), es[|es| - 1];
      Errors(l, p, es[..|es| - 1], nonce) + (if e.UpstreamError? && InFlight(q, e.id, nonce) then [e.code] else [])
  }

  function Prompted(usages: seq<Usage>): int {
    if usages == [] then 0
    else
      var last := usages[|usages| - 1];
      Prompted(usages[..|usages| - 1]) + if last.prompt.Some? then last.prompt.value else 0
  }

  /** A completion count is lost where the prompt count before it is not a number. */
  function Completed(usages: seq<Usage>): int {
    if usages == [] then 0
    else
      var last := usages[|usages| - 1];
      Completed(usages[..|usages| - 1])
      + if last.prompt.Some? && last.completion.Some? then last.completion.value else 0
  }

  /** The errors that point at the key: unauthorised, payment required, forbidden, too many requests. */
  function KeyErrors(codes: seq<int>): nat {
    if codes == [] then 0
    else
      var last := codes[|codes| - 1];
      KeyErrors(codes[..|codes| - 1]) + if last == 401 || last == 402 || last == 403 || last == 429 then 1 else 0
  }

  /** The row holds the sums of these answers and errors on top of what it held. */
  ghost predicate AddsUp(before: InferenceProxy.Row, after: InferenceProxy.Row, usages: seq<Usage>, codes: seq<int>) {
    && after.requests == before.requests + |usages|
    && after.inputTokens == before.inputTokens + Prompted(usages)
    && after.outputTokens == before.outputTokens + Completed(usages)
    && after.upstreamErrors == before.upstreamErrors + |codes|
    && after.keyFailures == before.keyFailures + KeyErrors(codes)
    && after.lastStatus == if codes == [] then before.lastStatus else Some(codes[|codes| - 1])
  }

  lemma OneMoreAnswer(before: InferenceProxy.Row, row: InferenceProxy.Row, usages: seq<Usage>, codes: seq<int>,
                      usage: Usage)
    requires AddsUp(before, row, usages, codes)
    ensures AddsUp(before, Metered(row, usage), usages + [usage], codes)
  {
    assert (usages + [usage])[..|usages|] == usages;
  }

  lemma OneMoreError(b: Books, before: InferenceProxy.Row, usages: seq<Usage>, codes: seq<int>, nonce: string,
                     code: int)
    requires nonce != "" && AddsUp(before, RowOf(b, nonce), usages, codes)
    ensures AddsUp(before, RowOf(RecordErrorIn(b, nonce, code), nonce), usages, codes + [code])
  {
    assert (codes + [code])[..|codes|] == codes;
  }

  lemma StepRow(l: Limits, p: Proxy, e: Event, nonce: string)
    requires nonce != "" && !Renews(e, nonce)
    ensures var after := RowOf(Step(l, p, e).books, nonce);
            if e.Answer? && InFlight(p, e.id, nonce) then after == Metered(RowOf(p.books, nonce), e.usage)
            else if e.UpstreamError? && InFlight(p, e.id, nonce)
            then after == RowOf(RecordErrorIn(p.books, nonce, e.code), nonce)
            else after == RowOf(p.books, nonce)
  {
    hide Metered, Admitted;
  }

  /** Until a nonce is renewed its row adds up: the requests, the tokens by kind, the errors, the key failures
      and the last status are exactly those of the answers and errors that reached its requests. */
  lemma {:induction false} LedgerExactly(l: Limits, p: Proxy, es: seq<Event>, nonce: string)
    requires nonce != ""
    requires forall i :: 0 <= i < |es| ==> !Renews(es[i], nonce)
    ensures AddsUp(RowOf(p.books, nonce), RowOf(Run(l, p, es).books, nonce),
                   Answers(l, p, es, nonce), Errors(l, p, es, nonce))
  {
    hide AddsUp, Step, Metered, RecordErrorIn;
    if es == [] {
      NothingAdded(RowOf(p.books, nonce));
    } else {
      var n := |es| - 1;
      var q, e := Run(l, p, es[..n]), es[n];
      LedgerExactly(l, p, es[..n], nonce);
      StepRow(l, q, e, nonce);
      var usages, codes := Answers(l, p, es[..n], nonce), Errors(l, p, es[..n], nonce);
      assert usages + [] == usages && codes + [] == codes;
      if e.Answer? && InFlight(q, e.id, nonce) {
        OneMoreAnswer(RowOf(p.books, nonce), RowOf(q.books, nonce), usages, codes, e.usage);
      } else if e.UpstreamError? && InFlight(q, e.id, nonce) {
        OneMoreError(q.books, RowOf(p.books, nonce), usages, codes, nonce, e.code);
      }
    }
  }

  lemma NothingAdded(row: InferenceProxy.Row)
    ensures AddsUp(row, row, [], [])
  {
  }

  // ----- what renewing a nonce starts over

  /** Registering a nonce and resetting it both leave an empty row. Registering leaves the new session and
      resetting none; without a nonce or a key, registering does nothing; a reset without a nonce is one of all. */
  lemma RenewedExactly(l: Limits, p: Proxy, nonce: string, apiKey: string, provider: string)
    ensures var q := Step(l, p, Register(nonce, apiKey, provider));
            if nonce == "" || apiKey == "" then q == p
            else
              && RowOf(q.books, nonce) == InferenceProxy.Row(0, 0, 0, 0, 0, None)
              && nonce in q.books.sessions && q.books.sessions[nonce] == Session(apiKey, provider)
              && q.handlers == p.handlers
    ensures var q := Step(l, p, Reset(nonce));
            && RowOf(q.books, nonce) == InferenceProxy.Row(0, 0, 0, 0, 0, None)
            && nonce !in q.books.sessions
            && q.handlers == p.handlers
            && (nonce == "" ==> q.books.metrics == map[] && q.books.sessions == map[])
  {
  }

  /** Whatever was spent before, a request waiting when its nonce is registered again or reset passes its
      check. */
  lemma RenewedPasses(l: Limits, p: Proxy, e: Event, id: nat, nonce: string)
    requires l.maxRequests >= 1 && l.maxTokens >= 1
    requires nonce != "" && Renews(e, nonce) && (e.Register? ==> e.apiKey != "")
    requires id in p.handlers && p.handlers[id] == Waiting(nonce)
    ensures var q := Step(l, p, e);
            && Requests(q, nonce) == 0 && Spent(q, nonce) == 0
            && InFlight(Step(l, q, Check(id)), id, nonce)
  {
  }

  /** `n` requests of a nonce served one by one by handler `id`, each under this header, none costing tokens. */
  function Served(id: nat, nonce: string, headerKey: string, headerProvider: string, n: nat): seq<Event> {
    if n == 0 then []
    else
      Served(id, nonce, headerKey, headerProvider, n - 1)
      + [Arrive(id, nonce, headerKey, headerProvider)] + [Check(id)] + [Answer(id, FREE)]
  }

  /** The header gets a request of the nonce in, its row holds `n` requests and no tokens. */
  ghost predicate Open(l: Limits, p: Proxy, nonce: string, headerKey: string, headerProvider: string, n: nat,
                       handlers: map<nat, Stage>) {
    && Admitted(l, p.books, nonce, headerKey, headerProvider)
    && Requests(p, nonce) == n && Spent(p, nonce) == 0
    && p.handlers == handlers
  }

  lemma Arrived(l: Limits, p: Proxy, id: nat, nonce: string, headerKey: string, headerProvider: string, n: nat,
                handlers: map<nat, Stage>)
    requires id !in handlers && l.maxTokens >= 1
    requires Open(l, p, nonce, headerKey, headerProvider, n, handlers)
    ensures var waiting := Step(l, p, Arrive(id, nonce, headerKey, headerProvider));
            && waiting.handlers == handlers[id := Waiting(nonce)] && waiting.books == p.books
            && (InFlight(Step(l, waiting, Check(id)), id, nonce) <==> n < l.maxRequests)
  {
    hide Admitted;
    var waiting := Step(l, p, Arrive(id, nonce, headerKey, headerProvider));
    assert waiting == p.(handlers := handlers[id := Waiting(nonce)]);
    CheckExactly(l, waiting, id, nonce);
  }

  lemma OneServed(l: Limits, p: Proxy, id: nat, nonce: string, headerKey: string, headerProvider: string, n: nat,
                  handlers: map<nat, Stage>)
    requires nonce != "" && id !in handlers
    requires n < l.maxRequests && l.maxTokens >= 1
    requires Open(l, p, nonce, headerKey, headerProvider, n, handlers)
    ensures var a := Step(l, p, Arrive(id, nonce, headerKey, headerProvider));
            var q := Step(l, Step(l, a, Check(id)), Answer(id, FREE));
            Open(l, q, nonce, headerKey, headerProvider, n + 1, handlers)
  {
    hide Open, Spent, Requests, RecordIn, Admitted;
    var a := Step(l, p, Arrive(id, nonce, headerKey, headerProvider));
    Arrived(l, p, id, nonce, headerKey, headerProvider, n, handlers);
    var b := Step(l, a, Check(id));
    CheckLeads(l, a, id, nonce);
    assert b.handlers == handlers[id := Forwarded(nonce)];
    assert handlers[id := Forwarded(nonce)] - {id} == handlers;
    OneRecorded(l, p, b, id, nonce, headerKey, headerProvider, n, handlers);
  }

  lemma CheckLeads(l: Limits, p: Proxy, id: nat, nonce: string)
    requires id in p.handlers && p.handlers[id] == Waiting(nonce)
    requires InFlight(Step(l, p, Check(id)), id, nonce)
    ensures Step(l, p, Check(id)) == p.(handlers := p.handlers[id := Forwarded(nonce)])
  {
  }

  lemma OneRecorded(l: Limits, p: Proxy, b: Proxy, id: nat, nonce: string, headerKey: string, headerProvider: string,
                    n: nat, handlers: map<nat, Stage>)
    requires nonce != "" && Open(l, p, nonce, headerKey, headerProvider, n, handlers) && b.books == p.books
    ensures Open(l, Proxy(RecordIn(b.books, nonce, FREE), handlers), nonce, headerKey, headerProvider, n + 1, handlers)
  {
    hide Admitted, RecordIn, Requests, Spent;
    var q := Proxy(RecordIn(b.books, nonce, FREE), handlers);
    RecordedRow(p, q, nonce);
    SameSessions(l, p.books, q.books, nonce, headerKey, headerProvider);
  }

  lemma RecordedRow(p: Proxy, q: Proxy, nonce: string)
    requires nonce != "" && q.books == RecordIn(p.books, nonce, FREE)
    ensures Requests(q, nonce) == Requests(p, nonce) + 1 && Spent(q, nonce) == Spent(p, nonce)
    ensures q.books.sessions == p.books.sessions
  {
  }

  lemma SameSessions(l: Limits, b: Books, c: Books, nonce: string, headerKey: string, headerProvider: string)
    requires b.sessions == c.sessions
    ensures Admitted(l, b, nonce, headerKey, headerProvider) == Admitted(l, c, nonce, headerKey, headerProvider)
  {
    hide ProviderUrl;
  }

  lemma RunThree(l: Limits, p: Proxy, es: seq<Event>, a: Event, b: Event, c: Event)
    ensures Run(l, p, es + [a] + [b] + [c]) == Step(l, Step(l, Step(l, Run(l, p, es), a), b), c)
  {
    hide Step, Run;
    RunOne(l, p, es, a);
    RunOne(l, p, es + [a], b);
    RunOne(l, p, es + [a] + [b], c);
  }

  lemma RunOne(l: Limits, p: Proxy, es: seq<Event>, e: Event)
    ensures Run(l, p, es + [e]) == Step(l, Run(l, p, es), e)
  {
    hide Step;
    assert (es + [e])[..|es|] == es;
  }

  lemma {:induction false} AllServed(l: Limits, p: Proxy, id: nat, nonce: string, headerKey: string,
                                     headerProvider: string, n: nat, handlers: map<nat, Stage>)
    requires nonce != "" && id !in handlers
    requires n <= l.maxRequests && l.maxTokens >= 1
    requires Open(l, p, nonce, headerKey, headerProvider, 0, handlers)
    ensures Open(l, Run(l, p, Served(id, nonce, headerKey, headerProvider, n)),
                 nonce, headerKey, headerProvider, n, handlers)
  {
    hide Open, Step;
    if n > 0 {
      AllServed(l, p, id, nonce, headerKey, headerProvider, n - 1, handlers);
      var es := Served(id, nonce, headerKey, headerProvider, n - 1);
      RunThree(l, p, es, Arrive(id, nonce, headerKey, headerProvider), Check(id), Answer(id, FREE));
      OneServed(l, Run(l, p, es), id, nonce, headerKey, headerProvider, n - 1, handlers);
    }
  }

  /** `n` requests served one by one are all metered, no handler is left behind, and one more gets in and passes
      its check exactly while `n` is below the budget. */
  ghost predicate ServesAgain(l: Limits, p: Proxy, id: nat, nonce: string, headerKey: string, headerProvider: string,
                              n: nat) {
    var q := Run(l, p, Served(id, nonce, headerKey, headerProvider, n));
    && Requests(q, nonce) == n && q.handlers == p.handlers
    && var waiting := Step(l, q, Arrive(id, nonce, headerKey, headerProvider));
       && waiting.handlers == p.handlers[id := Waiting(nonce)]
       && (InFlight(Step(l, waiting, Check(id)), id, nonce) <==> n < l.maxRequests)
  }

  lemma OpenServesAgain(l: Limits, p: Proxy, id: nat, nonce: string, headerKey: string, headerProvider: string, n: nat)
    requires nonce != "" && id !in p.handlers && n <= l.maxRequests && l.maxTokens >= 1
    requires Open(l, p, nonce, headerKey, headerProvider, 0, p.handlers)
    ensures ServesAgain(l, p, id, nonce, headerKey, headerProvider, n)
  {
    hide Step, Run, Served, Admitted;
    AllServed(l, p, id, nonce, headerKey, headerProvider, n, p.handlers);
    Arrived(l, Run(l, p, Served(id, nonce, headerKey, headerProvider, n)),
            id, nonce, headerKey, headerProvider, n, p.handlers);
  }

  /** The other half of exhaustion: in whatever state the proxy is and whatever the nonce has spent, once it is
      registered again with a usable key exactly the full number of requests, served one by one, gets through
      again, whatever key the requests themselves carry. */
  lemma RegisteringStartsOver(l: Limits, p: Proxy, id: nat, nonce: string, apiKey: string, provider: string,
                              headerKey: string, headerProvider: string, n: nat)
    requires nonce != "" && Usable(if provider == "" then headerProvider else provider, apiKey) && id !in p.handlers
    requires l.maxRequests >= 1 && l.maxTokens >= 1 && n <= l.maxRequests
    ensures ServesAgain(l, Step(l, p, Register(nonce, apiKey, provider)), id, nonce, headerKey, headerProvider, n)
  {
    hide Admitted, ServesAgain, Run;
    var r := Step(l, p, Register(nonce, apiKey, provider));
    RenewedExactly(l, p, nonce, apiKey, provider);
    AdmittedExactly(l, r.books, nonce, headerKey, headerProvider);
    OpenServesAgain(l, r, id, nonce, headerKey, headerProvider, n);
  }

  /** Without metering a reset does the same for requests that carry a usable key of their own. */
  lemma ResettingStartsOver(l: Limits, p: Proxy, id: nat, nonce: string, reset: string,
                            headerKey: string, headerProvider: string, n: nat)
    requires !l.metered && nonce != "" && (reset == nonce || reset == "") && id !in p.handlers
    requires Usable(headerProvider, headerKey)
    requires l.maxRequests >= 1 && l.maxTokens >= 1 && n <= l.maxRequests
    ensures ServesAgain(l, Step(l, p, Reset(reset)), id, nonce, headerKey, headerProvider, n)
  {
    hide Admitted, ServesAgain, Run;
    var r := Step(l, p, Reset(reset));
    RenewedExactly(l, p, reset, "", "");
    AdmittedExactly(l, r.books, nonce, headerKey, headerProvider);
    OpenServesAgain(l, r, id, nonce, headerKey, headerProvider, n);
  }

  /** The requests of a nonce that are in, waiting or past the check. */
  function In(p: Proxy, nonce: string): set<nat> {
    set id | id in p.handlers && p.handlers[id].nonce == nonce
  }

  predicate Registers(e: Event, nonce: string) {
    e.Register? && e.nonce == nonce && e.apiKey != ""
  }

  /** Under metering nothing of a nonce gets in after a reset of it, or of everything, until it is registered
      with a key again, and until then it has no session. */
  lemma {:induction false} NothingArrivesAfterReset(l: Limits, p: Proxy, nonce: string, reset: string, es: seq<Event>)
    requires l.metered && (reset == nonce || reset == "")
    requires forall i :: 0 <= i < |es| ==> !Registers(es[i], nonce)
    ensures var q := Run(l, Step(l, p, Reset(reset)), es);
            In(q, nonce) <= In(p, nonce) && nonce !in q.books.sessions
  {
    hide Step;
    if es == [] {
      NoSessionAfterReset(l, p, nonce, reset);
    } else {
      var n := |es| - 1;
      NothingArrivesAfterReset(l, p, nonce, reset, es[..n]);
      NothingArrives(l, Run(l, Step(l, p, Reset(reset)), es[..n]), es[n], nonce);
    }
  }

  lemma NoSessionAfterReset(l: Limits, p: Proxy, nonce: string, reset: string)
    requires reset == nonce || reset == ""
    ensures var q := Step(l, p, Reset(reset)); In(q, nonce) == In(p, nonce) && nonce !in q.books.sessions
  {
  }

  lemma NothingArrives(l: Limits, p: Proxy, e: Event, nonce: string)
    requires l.metered && nonce !in p.books.sessions && !Registers(e, nonce)
    ensures In(Step(l, p, e), nonce) <= In(p, nonce) && nonce !in Step(l, p, e).books.sessions
  {
    hide ProviderUrl, OverBudgetIn;
  }
}
