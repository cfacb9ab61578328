/**
 * The proxy pool of proxy_pool.py: a FIFO queue of "scheme://ip:port"
 * strings, a set of every proxy that has been admitted and not reported as
 * failed, and a flag that keeps two refills from running at once.
 *
 * The pool object is the class `Pool`; its abstract value is a `PoolState`,
 * and each operation is specified by a function on `PoolState`
 * (`Refill`, `Revalidate`, `Checkout`, `Report`, `Tick`). The lemmas below
 * the class are stated about those functions.
 *
 * Liveness of a proxy (an HTTP probe through it) is the parameter
 * `valid`, and what a listing page yields is the parameter `fetch`, which
 * gives the IP column and the port column scraped from the page (both
 * empty when the request fails).
 */
module ProxyPool {
  import opened Base

  const DefaultMinProxies := 20
  const DefaultCheckInterval := 300
  const DefaultTimeout := 5

  /** Free-proxy listing pages, in the order a refill visits them. */
  const ProxySources: seq<string> := [
    "https://www.kuaidaili.com/free/inha/",
    "https://www.kuaidaili.com/free/intr/",
    "http://www.ip3366.net/free/?stype=1",
    "http://www.ip3366.net/free/?stype=2",
    "http://www.89ip.cn/index_{}.html",
    "https://www.xicidaili.com/nn/",
    "https://www.xicidaili.com/nt/",
    "https://www.xicidaili.com/wt/",
    "https://ip.jiangxianli.com/?page={}",
    "https://www.kuaidaili.com/ops/proxylist/{}/"
  ]

  /** Number of pages requested from a paginated source. */
  const PagesPerTemplate := 3

  // ------------------------------------------------------------ sources

  /** Python `api.format(page)` for a template with one `{}` slot. */
  function FillPage(api: string, page: nat): string
    decreases |api|
  {
    if |api| < 2 then api
    else if "{}" <= api then NatToString(page) + api[2..]
    else [api[0]] + FillPage(api[1..], page)
  }

  /** The URLs a refill requests for one source: pages 1 to 3 of a template, else the source itself. */
  function SourceUrls(api: string): seq<string> {
    if Contains(api, "{}") then [FillPage(api, 1), FillPage(api, 2), FillPage(api, 3)]
    else [api]
  }

  /** Proxies a listing page yields: http then https for each (ip, port) row, up to the shorter column. */
  function Paired(ips: seq<string>, ports: seq<string>): seq<string>
    decreases |ips|
  {
    var n := Min(|ips|, |ports|);
    if n == 0 then []
    else Paired(ips[..n - 1], ports[..n - 1]) + Pair(ips[n - 1], ports[n - 1])
  }

  function Pair(ip: string, port: string): seq<string> {
    ["http://" + ip + ":" + port, "https://" + ip + ":" + port]
  }

  function Min(a: int, b: int): int { if a <= b then a else b }

  /** Proxies scraped from a list of request URLs, in request order. */
  function FetchAll(urls: seq<string>, fetch: string -> (seq<string>, seq<string>)): seq<string>
  {
    if urls == [] then []
    else
      var u := urls[|urls| - 1];
      FetchAll(urls[..|urls| - 1], fetch) + Paired(fetch(u).0, fetch(u).1)
  }

  /** Proxies scraped from every source, in source order. */
  function Candidates(apis: seq<string>, fetch: string -> (seq<string>, seq<string>)): seq<string>
  {
    if apis == [] then []
    else Candidates(apis[..|apis| - 1], fetch) + FetchAll(SourceUrls(apis[|apis| - 1]), fetch)
  }

  // ------------------------------------------------------------ state

  datatype PoolState = PoolState(queue: seq<string>, known: set<string>, updating: bool)

  predicate NoDup(q: seq<string>) {
    forall i, j :: 0 <= i < j < |q| ==> q[i] != q[j]
  }

  /** The pool's intended invariant: no proxy queued twice, every queued proxy known. */
  predicate Inv(s: PoolState) {
    NoDup(s.queue) && forall i :: 0 <= i < |s.queue| ==> s.queue[i] in s.known
  }

  /**
   * Admission after validation: candidates that are live and not yet known,
   * in candidate order, each admitted once; the known set grows as they go.
   */
  function Admit(c: seq<string>, valid: string -> bool, known: set<string>): (seq<string>, set<string>)
    decreases |c|
  {
    if c == [] then ([], known)
    else if valid(c[0]) && c[0] !in known then
      var r := Admit(c[1..], valid, known + {c[0]});
      ([c[0]] + r.0, r.1)
    else Admit(c[1..], valid, known)
  }

  /** `update_pool`: nothing while another refill runs; otherwise queue the admitted candidates. */
  function Refill(s: PoolState, sources: seq<string>, valid: string -> bool,
                  fetch: string -> (seq<string>, seq<string>)): PoolState
  {
    if s.updating then s
    else
      var r := Admit(Candidates(sources, fetch), valid, s.known);
      PoolState(s.queue + r.0, r.1, false)
  }

  /** The queued proxies that are still live, in queue order. */
  function Keep(q: seq<string>, valid: string -> bool): seq<string>
  {
    if q == [] then []
    else Keep(q[..|q| - 1], valid) + (if valid(q[|q| - 1]) then [q[|q| - 1]] else [])
  }

  /** `_check_proxies`: drop dead proxies from the queue; the known set is left as it is. */
  function Revalidate(s: PoolState, valid: string -> bool): PoolState {
    if s.queue == [] then s else s.(queue := Keep(s.queue, valid))
  }

  /** `get_proxy`: refill an empty idle pool first, then take the front of the queue if any. */
  function Checkout(s: PoolState, sources: seq<string>, valid: string -> bool,
                    fetch: string -> (seq<string>, seq<string>)): (Option<string>, PoolState)
  {
    var s1 := if s.queue == [] && !s.updating then Refill(s, sources, valid, fetch) else s;
    if s1.queue == [] then (None, s1) else (Some(s1.queue[0]), s1.(queue := s1.queue[1..]))
  }

  /** Python truthiness of the reported proxy: None and "" are ignored. */
  predicate Truthy(p: Option<string>) {
    p.Some? && p.value != ""
  }

  /** `report_proxy`: success requeues the proxy, failure forgets it; the queue is not searched. */
  function Report(s: PoolState, proxy: Option<string>, success: bool): PoolState {
    if !Truthy(proxy) then s
    else if success then s.(queue := s.queue + [proxy.value])
    else s.(known := s.known - {proxy.value})
  }

  /** One round of `_maintain_pool`: refill when short and idle, then revalidate. */
  function Tick(s: PoolState, minProxies: int, sources: seq<string>, valid: string -> bool,
                fetch: string -> (seq<string>, seq<string>)): PoolState
  {
    var s1 := if |s.queue| < minProxies && !s.updating then Refill(s, sources, valid, fetch) else s;
    Revalidate(s1, valid)
  }

  // ------------------------------------------------------------ the pool object

  class Pool {
    var queue: seq<string>
    var known: set<string>
    var updating: bool
    const minProxies: int
    const checkInterval: int
    const timeout: int
    const sources: seq<string>

    function State(): PoolState
      reads this
    {
      PoolState(queue, known, updating)
    }

    constructor (minProxies: int, checkInterval: int, timeout: int)
      ensures State() == PoolState([], {}, false)
      ensures this.minProxies == minProxies && this.checkInterval == checkInterval
      ensures this.timeout == timeout && sources == ProxySources
    {
      queue, known, updating := [], {}, false;
      this.minProxies, this.checkInterval, this.timeout := minProxies, checkInterval, timeout;
      sources := ProxySources;
    }

    method UpdatePool(valid: string -> bool, fetch: string -> (seq<string>, seq<string>))
      modifies this
      ensures State() == Refill(old(State()), sources, valid, fetch)
    {
      if updating {
        return;
      }
      updating := true;
      var found := CollectCandidates(sources, fetch);
      var admitted, grown := AdmitLive(found, valid, known);
      known := grown;
      var queued := queue;
      for q := 0 to |admitted|
        invariant queued == old(queue) + admitted[..q]
      {
        assert admitted[..q + 1] == admitted[..q] + [admitted[q]];
        queued := queued + [admitted[q]];
      }
      assert admitted[..|admitted|] == admitted;
      queue := queued;
      updating := false;
    }

    method CheckProxies(valid: string -> bool)
      modifies this
      ensures State() == Revalidate(old(State()), valid)
    {
      if queue == [] {
        return;
      }
      // Drain the queue into the list to check.
      var pending := queue;
      var toCheck: seq<string> := [];
      while pending != []
        invariant toCheck + pending == old(queue)
        decreases |pending|
      {
        toCheck := toCheck + [pending[0]];
        pending := pending[1..];
      }
      queue := pending;
      var live: seq<string> := [];
      for i := 0 to |toCheck|
        invariant live == Keep(toCheck[..i], valid)
      {
        assert toCheck[..i + 1][..i] == toCheck[..i];
        if valid(toCheck[i]) {
          live := live + [toCheck[i]];
        }
      }
      assert toCheck[..|toCheck|] == toCheck == old(queue);
      // Put the live proxies back, one after the other.
      var refilled: seq<string> := [];
      for k := 0 to |live|
        invariant refilled == live[..k]
      {
        assert live[..k + 1] == live[..k] + [live[k]];
        refilled := refilled + [live[k]];
      }
      assert live[..|live|] == live;
      queue := refilled;
    }

    method GetProxy(valid: string -> bool, fetch: string -> (seq<string>, seq<string>))
      returns (proxy: Option<string>)
      modifies this
      ensures (proxy, State()) == Checkout(old(State()), sources, valid, fetch)
    {
      if queue == [] && !updating {
        UpdatePool(valid, fetch);
      }
      if queue == [] {
        return None;
      }
      proxy := Some(queue[0]);
      queue := queue[1..];
    }

    method ReportProxy(proxy: Option<string>, success: bool)
      modifies this
      ensures State() == Report(old(State()), proxy, success)
    {
      if proxy == None || proxy.value == "" {
        return;
      }
      if success {
        queue := queue + [proxy.value];
      } else if proxy.value in known {
        known := known - {proxy.value};
      }
    }

    /** One pass of the maintenance thread's loop body (the sleep is not modelled). */
    method MaintainOnce(valid: string -> bool, fetch: string -> (seq<string>, seq<string>))
      modifies this
      ensures State() == Tick(old(State()), minProxies, sources, valid, fetch)
    {
      if |queue| < minProxies && !updating {
        UpdatePool(valid, fetch);
      }
      CheckProxies(valid);
    }
  }

  /** The request loop of `update_pool` for one source: every page URL, in order. */
  method FetchSource(api: string, fetch: string -> (seq<string>, seq<string>)) returns (got: seq<string>)
    ensures got == FetchAll(SourceUrls(api), fetch)
  {
    var urls := SourceUrls(api);
    got := [];
    var k := 0;
    while k < |urls|
      invariant 0 <= k <= |urls|
      invariant got == FetchAll(urls[..k], fetch)
    {
      var page := fetch(urls[k]);
      var proxies := PairProxies(page.0, page.1);
      got := got + proxies;
      assert urls[..k + 1][..k] == urls[..k];
      k := k + 1;
    }
    assert urls[..k] == urls;
  }

  /** The request loop of `update_pool` over every source, in order. */
  method CollectCandidates(sources: seq<string>, fetch: string -> (seq<string>, seq<string>))
    returns (found: seq<string>)
    ensures found == Candidates(sources, fetch)
  {
    found := [];
    var i := 0;
    while i < |sources|
      invariant 0 <= i <= |sources|
      invariant found == Candidates(sources[..i], fetch)
    {
      var got := FetchSource(sources[i], fetch);
      found := found + got;
      assert sources[..i + 1][..i] == sources[..i];
      i := i + 1;
    }
    assert sources[..i] == sources;
  }

  /** The admission loop of `update_pool`: live, not yet known, each proxy once. */
  method AdmitLive(found: seq<string>, valid: string -> bool, known: set<string>)
    returns (admitted: seq<string>, grown: set<string>)
    ensures (admitted, grown) == Admit(found, valid, known)
  {
    admitted, grown := [], known;
    var j := 0;
    assert found[0..] == found;
    while j < |found|
      invariant 0 <= j <= |found|
      invariant admitted + Admit(found[j..], valid, grown).0 == Admit(found, valid, known).0
      invariant Admit(found[j..], valid, grown).1 == Admit(found, valid, known).1
    {
      assert found[j..][1..] == found[j + 1..];
      assert found[j..][0] == found[j];
      if valid(found[j]) && found[j] !in grown {
        admitted := admitted + [found[j]];
        grown := grown + {found[j]};
      }
      j := j + 1;
    }
    assert found[j..] == [];
    assert admitted == Admit(found, valid, known).0 && grown == Admit(found, valid, known).1;
  }

  /** The pairing loop of `_fetch_proxies_from_api`. */
  method PairProxies(ips: seq<string>, ports: seq<string>) returns (proxies: seq<string>)
    ensures proxies == Paired(ips, ports)
  {
    proxies := [];
    var i := 0;
    var n := Min(|ips|, |ports|);
    while i < n
      invariant 0 <= i <= n
      invariant proxies == Paired(ips[..i], ports[..i])
    {
      assert ips[..i + 1][..i] == ips[..i] && ports[..i + 1][..i] == ports[..i];
      proxies := proxies + ["http://" + ips[i] + ":" + ports[i]];
      proxies := proxies + ["https://" + ips[i] + ":" + ports[i]];
      i := i + 1;
    }
    PairedTruncate(ips, ports);
  }

  // ------------------------------------------------------------ lemmas

  lemma {:induction false} PairedTruncate(ips: seq<string>, ports: seq<string>)
    ensures Paired(ips, ports) == Paired(ips[..Min(|ips|, |ports|)], ports[..Min(|ips|, |ports|)])
  {
    var n := Min(|ips|, |ports|);
    if n > 0 {
      assert ips[..n][..n - 1] == ips[..n - 1] && ports[..n][..n - 1] == ports[..n - 1];
    }
  }

  /** Each scraped (ip, port) row yields an http proxy followed by an https proxy. */
  lemma {:induction false} PairedAt(ips: seq<string>, ports: seq<string>, i: int)
    requires 0 <= i < Min(|ips|, |ports|)
    ensures |Paired(ips, ports)| == 2 * Min(|ips|, |ports|)
    ensures Paired(ips, ports)[2 * i] == "http://" + ips[i] + ":" + ports[i]
    ensures Paired(ips, ports)[2 * i + 1] == "https://" + ips[i] + ":" + ports[i]
    decreases |ips|
  {
    PairedTruncate(ips, ports);
    var n := Min(|ips|, |ports|);
    PairedEqualAt(ips[..n], ports[..n], i);
  }

  lemma {:induction false} PairedEqualAt(ips: seq<string>, ports: seq<string>, i: int)
    requires |ips| == |ports| && 0 <= i < |ips|
    ensures |Paired(ips, ports)| == 2 * |ips|
    ensures Paired(ips, ports)[2 * i] == "http://" + ips[i] + ":" + ports[i]
    ensures Paired(ips, ports)[2 * i + 1] == "https://" + ips[i] + ":" + ports[i]
    decreases |ips|
  {
    var m := |ips| - 1;
    if i < m {
      PairedEqualAt(ips[..m], ports[..m], i);
    } else if m > 0 {
      PairedEqualAt(ips[..m], ports[..m], 0);
    }
  }

  // ------------------------------------------------------------ what a refill can queue

  predicate IsProxyUrl(p: string) {
    StartsWith(p, "http://") || StartsWith(p, "https://")
  }

  /** Every scraped candidate is an http:// or https:// proxy URL. */
  lemma {:induction false} CandidatesAreProxyUrls(apis: seq<string>, fetch: string -> (seq<string>, seq<string>))
    ensures forall i :: 0 <= i < |Candidates(apis, fetch)| ==> IsProxyUrl(Candidates(apis, fetch)[i])
    decreases |apis|
  {
    if apis != [] {
      CandidatesAreProxyUrls(apis[..|apis| - 1], fetch);
      FetchAllAreProxyUrls(SourceUrls(apis[|apis| - 1]), fetch);
    }
  }

  lemma {:induction false} FetchAllAreProxyUrls(urls: seq<string>, fetch: string -> (seq<string>, seq<string>))
    ensures forall i :: 0 <= i < |FetchAll(urls, fetch)| ==> IsProxyUrl(FetchAll(urls, fetch)[i])
    decreases |urls|
  {
    if urls != [] {
      var u := urls[|urls| - 1];
      FetchAllAreProxyUrls(urls[..|urls| - 1], fetch);
      PairedAreProxyUrls(fetch(u).0, fetch(u).1);
    }
  }

  lemma {:induction false} PairedAreProxyUrls(ips: seq<string>, ports: seq<string>)
    ensures forall i :: 0 <= i < |Paired(ips, ports)| ==> IsProxyUrl(Paired(ips, ports)[i])
    decreases |ips|
  {
    var n := Min(|ips|, |ports|);
    if n > 0 {
      PairedAreProxyUrls(ips[..n - 1], ports[..n - 1]);
      var ip, port := ips[n - 1], ports[n - 1];
      assert "http://" <= "http://" + ip + ":" + port;
      assert "https://" <= "https://" + ip + ":" + port;
    }
  }

  /**
   * Admission keeps exactly the live candidates that were not known, each
   * once, and the known set grows by exactly the admitted proxies.
   */
  lemma {:induction false} AdmitSpec(c: seq<string>, valid: string -> bool, known: set<string>)
    ensures forall x :: x in Admit(c, valid, known).0 <==> x in c && valid(x) && x !in known
    ensures forall x :: x in Admit(c, valid, known).1 <==> x in known || x in Admit(c, valid, known).0
    ensures NoDup(Admit(c, valid, known).0)
    decreases |c|
  {
    if c != [] {
      var k1 := if valid(c[0]) && c[0] !in known then known + {c[0]} else known;
      AdmitSpec(c[1..], valid, k1);
      assert forall x :: x in c <==> x == c[0] || x in c[1..];
    }
  }

  /** Admission of a concatenation is admission of the first part, then of the second with the grown set. */
  lemma {:induction false} AdmitConcat(a: seq<string>, b: seq<string>, valid: string -> bool, known: set<string>)
    ensures Admit(a + b, valid, known)
         == (Admit(a, valid, known).0 + Admit(b, valid, Admit(a, valid, known).1).0,
             Admit(b, valid, Admit(a, valid, known).1).1)
    decreases |a|
  {
    if a == [] {
      assert a + b == b;
      assert Admit(a, valid, known) == ([], known);
      assert [] + Admit(b, valid, known).0 == Admit(b, valid, known).0;
    } else {
      assert (a + b)[1..] == a[1..] + b && (a + b)[0] == a[0];
      var k1 := if valid(a[0]) && a[0] !in known then known + {a[0]} else known;
      AdmitConcat(a[1..], b, valid, k1);
      var ra := Admit(a[1..], valid, k1);
      var rb := Admit(b, valid, ra.1);
      assert Admit(a, valid, known).1 == ra.1;
      if valid(a[0]) && a[0] !in known {
        assert Admit(a + b, valid, known) == ([a[0]] + (ra.0 + rb.0), rb.1);
        assert [a[0]] + (ra.0 + rb.0) == ([a[0]] + ra.0) + rb.0;
      }
    }
  }

  /** Revalidation keeps exactly the live queued proxies. */
  lemma {:induction false} KeepSpec(q: seq<string>, valid: string -> bool)
    ensures forall x :: x in Keep(q, valid) <==> x in q && valid(x)
    ensures |Keep(q, valid)| <= |q|
    ensures NoDup(q) ==> NoDup(Keep(q, valid))
    decreases |q|
  {
    if q != [] {
      var init := q[..|q| - 1];
      KeepSpec(init, valid);
      assert q == init + [q[|q| - 1]];
      assert forall x :: x in q <==> x in init || x == q[|q| - 1];
    }
  }

  /** Revalidation preserves queue order: it filters each part of the queue separately. */
  lemma {:induction false} KeepConcat(a: seq<string>, b: seq<string>, valid: string -> bool)
    ensures Keep(a + b, valid) == Keep(a, valid) + Keep(b, valid)
    decreases |b|
  {
    if b == [] {
      assert a + b == a;
    } else {
      var init := b[..|b| - 1];
      assert (a + b)[..|a + b| - 1] == a + init;
      KeepConcat(a, init, valid);
    }
  }

  /** A proxy URL is never the empty string, so reporting one is never ignored. */
  predicate WellFormed(s: PoolState) {
    Inv(s) && forall i :: 0 <= i < |s.queue| ==> IsProxyUrl(s.queue[i])
  }

  /**
   * A refill keeps the pool well formed: it queues only live proxy URLs that
   * were not known before, and remembers them.
   */
  lemma RefillPreservesWellFormed(s: PoolState, sources: seq<string>, valid: string -> bool,
                                  fetch: string -> (seq<string>, seq<string>))
    requires WellFormed(s)
    ensures WellFormed(Refill(s, sources, valid, fetch))
    ensures s.known <= Refill(s, sources, valid, fetch).known
    ensures forall x :: x in Refill(s, sources, valid, fetch).queue && x !in s.queue ==>
              valid(x) && x !in s.known
  {
    if !s.updating {
      var c := Candidates(sources, fetch);
      var r := Admit(c, valid, s.known);
      AdmitSpec(c, valid, s.known);
      CandidatesAreProxyUrls(sources, fetch);
      var q := s.queue + r.0;
      forall i, j | 0 <= i < j < |q| ensures q[i] != q[j] {
        if j >= |s.queue| && i < |s.queue| {
          assert q[i] in s.known && q[j] in r.0;
        } else if i >= |s.queue| {
          assert q[i] == r.0[i - |s.queue|] && q[j] == r.0[j - |s.queue|];
        }
      }
      forall i | 0 <= i < |q| ensures q[i] in r.1 && IsProxyUrl(q[i]) {
        if i >= |s.queue| {
          assert q[i] == r.0[i - |s.queue|];
          assert q[i] in c;
        }
      }
    }
  }

  /** Revalidation keeps the pool well formed and removes exactly the dead proxies from the queue. */
  lemma RevalidatePreservesWellFormed(s: PoolState, valid: string -> bool)
    requires WellFormed(s)
    ensures WellFormed(Revalidate(s, valid))
    ensures Revalidate(s, valid).known == s.known
    ensures forall x :: x in Revalidate(s, valid).queue <==> x in s.queue && valid(x)
  {
    KeepSpec(s.queue, valid);
    var q := Revalidate(s, valid).queue;
    assert forall x :: x in q ==> x in s.queue;
    forall i | 0 <= i < |q| ensures q[i] in s.known && IsProxyUrl(q[i]) {
      assert q[i] in s.queue;
    }
  }

  /**
   * A proxy that revalidation finds dead leaves the queue but stays in the
   * known set, so no later refill can admit it again, whatever the sources
   * yield and however live it has become.
   */
  lemma RevalidatedOutNeverReadmitted(s: PoolState, valid: string -> bool, p: string,
                                      sources: seq<string>, later: string -> bool,
                                      fetch: string -> (seq<string>, seq<string>))
    requires WellFormed(s) && p in s.queue && !valid(p)
    ensures p !in Revalidate(s, valid).queue && p in Revalidate(s, valid).known
    ensures p !in Refill(Revalidate(s, valid), sources, later, fetch).queue
  {
    RevalidatePreservesWellFormed(s, valid);
    var s1 := Revalidate(s, valid);
    assert p in s.known by {
      var i :| 0 <= i < |s.queue| && s.queue[i] == p;
    }
    RefillPreservesWellFormed(s1, sources, later, fetch);
  }

  /** Checking out the front proxy and reporting success moves it to the back of the queue. */
  lemma CheckoutSuccessRotates(s: PoolState, sources: seq<string>, valid: string -> bool,
                               fetch: string -> (seq<string>, seq<string>))
    requires WellFormed(s) && s.queue != []
    ensures Checkout(s, sources, valid, fetch).0 == Some(s.queue[0])
    ensures Report(Checkout(s, sources, valid, fetch).1, Some(s.queue[0]), true)
         == s.(queue := s.queue[1..] + [s.queue[0]])
    ensures WellFormed(s.(queue := s.queue[1..] + [s.queue[0]]))
  {
    var p := s.queue[0];
    assert "http://" <= p || "https://" <= p;
    var q := s.queue[1..] + [p];
    var n := |s.queue|;
    assert forall i :: 0 <= i < n - 1 ==> q[i] == s.queue[i + 1];
    assert q[n - 1] == p;
    forall i, j | 0 <= i < j < n ensures q[i] != q[j] {
      if j < n - 1 {
        assert q[i] == s.queue[i + 1] && q[j] == s.queue[j + 1];
      } else {
        assert q[i] == s.queue[i + 1] && q[j] == s.queue[0];
      }
    }
    assert NoDup(q);
    forall i | 0 <= i < n ensures q[i] in s.known && IsProxyUrl(q[i]) {
      if i < n - 1 {
        assert q[i] == s.queue[i + 1];
      }
    }
  }

  /**
   * Checking out the front proxy and reporting failure retires it: it is in
   * neither the queue nor the known set, and the pool stays well formed.
   */
  lemma CheckoutFailureRetires(s: PoolState, sources: seq<string>, valid: string -> bool,
                               fetch: string -> (seq<string>, seq<string>))
    requires WellFormed(s) && s.queue != []
    ensures var after := Report(Checkout(s, sources, valid, fetch).1, Some(s.queue[0]), false);
            after == PoolState(s.queue[1..], s.known - {s.queue[0]}, s.updating)
            && s.queue[0] !in after.queue && s.queue[0] !in after.known
            && WellFormed(after)
  {
    var p := s.queue[0];
    assert "http://" <= p || "https://" <= p;
    var q := s.queue[1..];
    forall i | 0 <= i < |q| ensures q[i] != p && q[i] in s.known {
      assert q[i] == s.queue[i + 1];
    }
  }

  /**
   * Where a queued proxy comes from after a maintenance round: it was queued
   * before, or a refill admitted it as a live, previously unknown candidate.
   * In particular a retired proxy comes back only through a refill.
   */
  lemma TickProvenance(s: PoolState, minProxies: int, sources: seq<string>, valid: string -> bool,
                       fetch: string -> (seq<string>, seq<string>), p: string)
    requires WellFormed(s)
    requires p in Tick(s, minProxies, sources, valid, fetch).queue
    ensures valid(p)
    ensures p in s.queue || (p !in s.known && p in Candidates(sources, fetch))
  {
    var s1 := if |s.queue| < minProxies && !s.updating then Refill(s, sources, valid, fetch) else s;
    if |s.queue| < minProxies && !s.updating {
      RefillPreservesWellFormed(s, sources, valid, fetch);
      AdmitSpec(Candidates(sources, fetch), valid, s.known);
    }
    RevalidatePreservesWellFormed(s1, valid);
  }

  /**
   * The known set does not cover the queue in general: a success report
   * queues whatever it is given, even a proxy the pool never admitted.
   */
  lemma ReportSuccessOfUnknownProxy()
    ensures var s := Report(PoolState([], {}, false), Some("http://10.0.0.1:80"), true);
            s.queue == ["http://10.0.0.1:80"] && !Inv(s)
  {
    var s := Report(PoolState([], {}, false), Some("http://10.0.0.1:80"), true);
    assert s.queue[0] !in s.known;
  }

  // ------------------------------------------------------------ paginated sources

  lemma {:induction false} ContainsNeedsRoom(hay: string, needle: string)
    requires Contains(hay, needle)
    ensures |needle| <= |hay|
    decreases |hay|
  {
    if !(needle <= hay) {
      ContainsNeedsRoom(hay[1..], needle);
    }
  }

  /** Two different single-digit pages of a template are two different URLs. */
  lemma {:induction false} TemplatePagesDiffer(api: string, p: nat, q: nat)
    requires Contains(api, "{}") && p != q && p < 10 && q < 10
    ensures FillPage(api, p) != FillPage(api, q)
    decreases |api|
  {
    ContainsNeedsRoom(api, "{}");
    if "{}" <= api {
      assert FillPage(api, p)[0] != FillPage(api, q)[0];
    } else {
      TemplatePagesDiffer(api[1..], p, q);
      assert FillPage(api, p)[1..] == FillPage(api[1..], p);
      assert FillPage(api, q)[1..] == FillPage(api[1..], q);
    }
  }

  /**
   * A refill requests pages 1, 2 and 3 of each paginated source as three
   * different URLs, and every other source exactly once.
   */
  lemma SourceUrlsShape(api: string)
    ensures Contains(api, "{}") ==>
              && |SourceUrls(api)| == PagesPerTemplate
              && SourceUrls(api)[0] != SourceUrls(api)[1]
              && SourceUrls(api)[1] != SourceUrls(api)[2]
              && SourceUrls(api)[0] != SourceUrls(api)[2]
    ensures !Contains(api, "{}") ==> SourceUrls(api) == [api]
  {
    if Contains(api, "{}") {
      TemplatePagesDiffer(api, 1, 2);
      TemplatePagesDiffer(api, 2, 3);
      TemplatePagesDiffer(api, 1, 3);
    }
  }
}
