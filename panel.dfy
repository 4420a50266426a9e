/**
 * The 3x-ui panel API client (class XUIApiClient): the inbound-list cache,
 * the first-match lookup of a client by email, the copy-and-override update
 * of a client's "enable" flag, and the disable/enable sequences built on them.
 *
 * Nothing here talks to a network. Every request the client makes is
 * appended to `sent`, in order, and the panel's answer to each kind of
 * request is an input (`PanelReplies`). The wall clock is an input too
 * (`Clock`).
 */
module Panel {
  import opened Wrappers

  // ---------------------------------------------------------------------------
  // Data exchanged with the panel

  /** A JSON value, passed through verbatim. */
  datatype Value =
    | Null
    | Bool(b: bool)
    | Num(n: int)
    | Str(s: string)
    | Array(items: seq<Value>)
    | Object(fields: map<string, Value>)

  /** A client (user) entry of an inbound's settings: a JSON object. */
  type Client = map<string, Value>

  /**
   * An inbound of the panel's list. `settings` is the parsed client list of
   * its settings text: `None` when that text is not valid JSON or not a
   * string, `Some([])` when the key or the "clients" entry is absent.
   * `remark` is `None` when the inbound has no "remark" key.
   */
  datatype Inbound = Inbound(id: Value, remark: Option<Value>, settings: Option<seq<Client>>)

  /** A JSON reply body: its "success" flag and, for the inbound list, its "obj" (`None` when absent). */
  datatype Body = Body(success: bool, obj: Option<seq<Inbound>>)

  /**
   * The outcome of one HTTP request: a transport-level exception, or a
   * status with a body that is `None` when it does not parse as JSON.
   */
  datatype Reply = TransportError | Response(status: int, body: Option<Body>)

  /** `status_code == 200 and response.json().get('success')`; a body that is not JSON is a failure. */
  predicate Succeeded(reply: Reply)
  {
    reply.Response? && reply.status == 200 && reply.body.Some? && reply.body.value.success
  }

  /** The requests the client sends, with what each carries that the model keeps. */
  datatype Request =
    | LoginRequest
    | ListRequest
    | UpdateRequest(inboundId: Value, clientUuid: Option<Value>, settings: Value)
    | OnlinesRequest

  /**
   * The panel's answer to each request of one monitor step: the explicit
   * login, the inbound list, the re-login after a 401 on the list, the
   * client update and the force-disconnect.
   */
  datatype PanelReplies = PanelReplies(login: Reply, list: Reply, relogin: Reply, update: Reply, onlines: Reply)

  /** The two readings of `time.time()` in `_get_inbounds`: before the freshness test and after a fetch. */
  datatype Clock = Clock(beforeFetch: real, afterFetch: real)

  /** How long, in seconds, a non-empty cached inbound list is served without a fetch. */
  const CacheLifetime: real := 60.0

  /** The client's state: the two cache fields and the requests sent so far. */
  datatype ApiState = ApiState(inboundsCache: Option<seq<Inbound>>, inboundsCacheTime: real, sent: seq<Request>)

  /** A result together with the client state after computing it. */
  datatype Step<T> = Step(value: T, state: ApiState)

  /** The state after one more request. */
  function Send(s: ApiState, r: Request): ApiState
  {
    s.(sent := s.sent + [r])
  }

  // ---------------------------------------------------------------------------
  // _get_inbounds

  /** The cache is served as is: younger than the lifetime and not empty. */
  predicate CacheFresh(s: ApiState, now: real)
  {
    now - s.inboundsCacheTime < CacheLifetime && s.inboundsCache.Some? && s.inboundsCache.value != []
  }

  /** What `_get_inbounds` returns and leaves behind. */
  function ListedInbounds(s: ApiState, clock: Clock, panel: PanelReplies): Step<Option<seq<Inbound>>>
  {
    if CacheFresh(s, clock.beforeFetch) then Step(s.inboundsCache, s)
    else
      var s1 := Send(s, ListRequest);
      var reply := panel.list;
      if Succeeded(reply) then
        var fetched := Some(reply.body.value.obj.GetOr([]));
        Step(fetched, s1.(inboundsCache := fetched, inboundsCacheTime := clock.afterFetch))
      else if reply.Response? && reply.status == 401 then Step(None, Send(s1, LoginRequest))
      else Step(None, s1)
  }

  /** The cache is returned without any request exactly when it is fresh and not empty. */
  lemma CacheServedIffFresh(s: ApiState, clock: Clock, panel: PanelReplies)
    ensures var l := ListedInbounds(s, clock, panel);
      && (l.state.sent == s.sent <==> CacheFresh(s, clock.beforeFetch))
      && (CacheFresh(s, clock.beforeFetch) ==> l.value == s.inboundsCache && l.state == s)
  {
  }

  /** An empty cached list is refetched however young it is. */
  lemma EmptyCacheIsRefetched(s: ApiState, clock: Clock, panel: PanelReplies)
    requires s.inboundsCache == Some([])
    ensures var l := ListedInbounds(s, clock, panel);
      |l.state.sent| > |s.sent| && l.state.sent[|s.sent|] == ListRequest
  {
  }

  /** A successful fetch stores "obj" (default `[]`) and the second clock reading, and returns it. */
  lemma FetchSuccessRefreshesCache(s: ApiState, clock: Clock, panel: PanelReplies)
    requires !CacheFresh(s, clock.beforeFetch) && Succeeded(panel.list)
    ensures var l := ListedInbounds(s, clock, panel);
      && l.value == Some(panel.list.body.value.obj.GetOr([]))
      && l.state == ApiState(l.value, clock.afterFetch, s.sent + [ListRequest])
  {
  }

  /**
   * A failed fetch returns `None` and keeps both cache fields; a 401 adds
   * exactly one login and the list is not asked for again.
   */
  lemma FetchFailureKeepsCache(s: ApiState, clock: Clock, panel: PanelReplies)
    requires !CacheFresh(s, clock.beforeFetch) && !Succeeded(panel.list)
    ensures var l := ListedInbounds(s, clock, panel);
      && l.value.None?
      && l.state.inboundsCache == s.inboundsCache
      && l.state.inboundsCacheTime == s.inboundsCacheTime
      && l.state.sent == s.sent + [ListRequest]
                         + (if panel.list.Response? && panel.list.status == 401 then [LoginRequest] else [])
  {
  }

  /** A list fetched at time 0 is reused at time 30 without a request, and fetched again at time 61. */
  lemma CacheWindowScenario(s: ApiState, first: PanelReplies, later: PanelReplies, listed: seq<Inbound>)
    requires s.inboundsCache.None?
    requires first.list == Response(200, Some(Body(true, Some(listed)))) && listed != []
    ensures var s1 := ListedInbounds(s, Clock(0.0, 0.0), first).state;
      && ListedInbounds(s1, Clock(30.0, 30.0), later) == Step(Some(listed), s1)
      && ListedInbounds(s1, Clock(61.0, 61.0), later).state.sent == s1.sent + [ListRequest]
                         + (if later.list.Response? && later.list.status == 401 then [LoginRequest] else [])
  {
  }

  // ---------------------------------------------------------------------------
  // find_client_by_email

  /** `client.get('email') == email`. */
  predicate HasEmail(c: Client, email: string)
  {
    "email" in c && c["email"] == Str(email)
  }

  /** Client `j` of inbound `i` parsed and carries `email`. */
  predicate IsMatch(inbounds: seq<Inbound>, email: string, i: int, j: int)
  {
    && 0 <= i < |inbounds|
    && inbounds[i].settings.Some?
    && 0 <= j < |inbounds[i].settings.value|
    && HasEmail(inbounds[i].settings.value[j], email)
  }

  /** The index of the first client of `clients` that carries `email`. */
  function FirstWithEmail(clients: seq<Client>, email: string): (r: Option<nat>)
    ensures r.Some? ==> r.value < |clients| && HasEmail(clients[r.value], email)
    ensures r.Some? ==> forall j :: 0 <= j < r.value ==> !HasEmail(clients[j], email)
    ensures r.None? ==> forall j :: 0 <= j < |clients| ==> !HasEmail(clients[j], email)
  {
    if clients == [] then None
    else if HasEmail(clients[0], email) then Some(0)
    else
      match FirstWithEmail(clients[1..], email)
      case None => None
      case Some(j) => Some(j + 1)
  }

  /**
   * The position (inbound, client) of the first match in inbound order and
   * then client order; inbounds whose settings did not parse are skipped.
   */
  function Locate(inbounds: seq<Inbound>, email: string): (r: Option<(nat, nat)>)
    ensures r.Some? ==> IsMatch(inbounds, email, r.value.0, r.value.1)
    ensures r.Some? ==> forall i, j :: IsMatch(inbounds, email, i, j) ==>
                          r.value.0 < i || (r.value.0 == i && r.value.1 <= j)
    ensures r.None? ==> forall i, j :: !IsMatch(inbounds, email, i, j)
  {
    if inbounds == [] then None
    else
      var here := if inbounds[0].settings.Some? then FirstWithEmail(inbounds[0].settings.value, email) else None;
      if here.Some? then Some((0, here.value))
      else
        var rest := Locate(inbounds[1..], email);
        assert forall i, j :: IsMatch(inbounds, email, i, j) && i > 0 ==> IsMatch(inbounds[1..], email, i - 1, j);
        assert forall i, j :: IsMatch(inbounds, email, i, j) ==> i > 0;
        match rest
        case None => None
        case Some(p) =>
          assert IsMatch(inbounds[1..], email, p.0, p.1);
          Some((p.0 + 1, p.1))
  }

  /** `find_client_by_email`'s triple: the inbound, the client and the inbound's id. */
  datatype ClientMatch = ClientMatch(inbound: Inbound, client: Client, inboundId: Value)

  /** The first client carrying `email`, with its inbound; `None` when no client does. */
  function FindClient(inbounds: seq<Inbound>, email: string): (r: Option<ClientMatch>)
    ensures r.None? <==> forall i, j :: !IsMatch(inbounds, email, i, j)
    ensures r.Some? ==> HasEmail(r.value.client, email) && r.value.inboundId == r.value.inbound.id
  {
    match Locate(inbounds, email)
    case None => None
    case Some(p) =>
      var inbound := inbounds[p.0];
      Some(ClientMatch(inbound, inbound.settings.value[p.1], inbound.id))
  }

  /** Among duplicate emails the earliest inbound wins, and within it the earliest client. */
  lemma FindClientTakesFirst(inbounds: seq<Inbound>, email: string, i: nat, j: nat)
    requires IsMatch(inbounds, email, i, j)
    requires forall i', j' :: IsMatch(inbounds, email, i', j') ==> i < i' || (i == i' && j <= j')
    ensures FindClient(inbounds, email) == Some(ClientMatch(inbounds[i], inbounds[i].settings.value[j], inbounds[i].id))
  {
    var p := Locate(inbounds, email);
    assert p.Some?;
    assert IsMatch(inbounds, email, p.value.0, p.value.1);
  }

  /** What `find_client_by_email` returns and leaves behind: the lookup runs on the listed inbounds. */
  function Lookup(s: ApiState, email: string, clock: Clock, panel: PanelReplies): Step<Option<ClientMatch>>
  {
    var l := ListedInbounds(s, clock, panel);
    Step(FindClient(l.value.GetOr([]), email), l.state)
  }

  // ---------------------------------------------------------------------------
  // _update_client_status

  /** The copy of the client record submitted by an update: only "enable" is set. */
  function WithEnable(c: Client, enable: bool): (r: Client)
    ensures r.Keys == c.Keys + {"enable"}
    ensures r["enable"] == Bool(enable)
    ensures forall k :: k in c && k != "enable" ==> r[k] == c[k]
  {
    c["enable" := Bool(enable)]
  }

  /** Setting "enable" twice is setting it once, to the second value. */
  lemma WithEnableLastWins(c: Client, first: bool, second: bool)
    ensures WithEnable(WithEnable(c, first), second) == WithEnable(c, second)
  {
  }

  /** An update leaves a record unchanged exactly when it already had that "enable" value. */
  lemma WithEnableUnchangedIff(c: Client, enable: bool)
    ensures WithEnable(c, enable) == c <==> ("enable" in c && c["enable"] == Bool(enable))
  {
    if WithEnable(c, enable) == c {
      assert "enable" in WithEnable(c, enable);
    }
  }

  /** The "settings" form field: `{"clients": [copy]}`. */
  function UpdateSettings(c: Client, enable: bool): (v: Value)
    ensures v.Object? && v.fields.Keys == {"clients"}
    ensures v.fields["clients"] == Array([Object(WithEnable(c, enable))])
  {
    Object(map["clients" := Array([Object(WithEnable(c, enable))])])
  }

  /** `client_data.get('id')`. */
  function ClientUuid(c: Client): Option<Value>
  {
    if "id" in c then Some(c["id"]) else None
  }

  /** The update request for a found client. */
  function UpdateFor(m: ClientMatch, enable: bool): Request
  {
    UpdateRequest(m.inboundId, ClientUuid(m.client), UpdateSettings(m.client, enable))
  }

  // ---------------------------------------------------------------------------
  // disable_client and enable_client

  /** A successful disable or enable: the client record as found, and the inbound's remark. */
  datatype Changed = Changed(client: Client, inboundRemark: Value)

  /** `inbound.get('remark', 'N/A')`. */
  function RemarkOf(inbound: Inbound): Value
  {
    inbound.remark.GetOr(Str("N/A"))
  }

  /** What `disable_client` returns and leaves behind. */
  function Disabling(s: ApiState, email: string, clock: Clock, panel: PanelReplies): Step<Option<Changed>>
  {
    var found := Lookup(s, email, clock, panel);
    match found.value
    case None => Step(None, found.state)
    case Some(m) =>
      var s1 := Send(found.state, UpdateFor(m, false));
      if Succeeded(panel.update) then Step(Some(Changed(m.client, RemarkOf(m.inbound))), Send(s1, OnlinesRequest))
      else Step(None, s1)
  }

  /** What `enable_client` returns and leaves behind. */
  function Enabling(s: ApiState, email: string, clock: Clock, panel: PanelReplies): Step<Option<Changed>>
  {
    var found := Lookup(s, email, clock, panel);
    match found.value
    case None => Step(None, found.state)
    case Some(m) =>
      var s1 := Send(found.state, UpdateFor(m, true));
      if Succeeded(panel.update) then Step(Some(Changed(m.client, RemarkOf(m.inbound))), s1)
      else Step(None, s1)
  }

  /**
   * Disabling: no update and no disconnect without a client; the disconnect
   * follows the update only when the update succeeded; success returns the
   * record as found (its old "enable") with the inbound's remark.
   */
  lemma DisablingEffects(s: ApiState, email: string, clock: Clock, panel: PanelReplies)
    ensures var found := Lookup(s, email, clock, panel);
      var d := Disabling(s, email, clock, panel);
      && d.state.inboundsCache == found.state.inboundsCache
      && d.state.inboundsCacheTime == found.state.inboundsCacheTime
      && (found.value.None? ==> d == Step(None, found.state))
      && (found.value.Some? ==>
            d.state.sent == found.state.sent + [UpdateFor(found.value.value, false)]
                            + (if Succeeded(panel.update) then [OnlinesRequest] else []))
      && (d.value.Some? <==> found.value.Some? && Succeeded(panel.update))
      && (d.value.Some? ==> d.value.value == Changed(found.value.value.client, RemarkOf(found.value.value.inbound)))
  {
  }

  /** The force-disconnect's own reply never changes what disabling returns or sends. */
  lemma DisablingIgnoresDisconnectReply(s: ApiState, email: string, clock: Clock, panel: PanelReplies, onlines: Reply)
    ensures Disabling(s, email, clock, panel.(onlines := onlines)) == Disabling(s, email, clock, panel)
  {
  }

  /** The lookup only ever lists inbounds and re-logs in. */
  lemma LookupSendsOnlyListAndLogin(s: ApiState, email: string, clock: Clock, panel: PanelReplies)
    ensures var found := Lookup(s, email, clock, panel);
      && |found.state.sent| >= |s.sent| && found.state.sent[..|s.sent|] == s.sent
      && forall r :: r in found.state.sent[|s.sent|..] ==> r == ListRequest || r == LoginRequest
  {
    var l := ListedInbounds(s, clock, panel);
    assert l.state.sent[..|s.sent|] == s.sent;
  }

  /** Enabling never force-disconnects: after the lookup it sends at most the update. */
  lemma EnablingNeverDisconnects(s: ApiState, email: string, clock: Clock, panel: PanelReplies)
    ensures var e := Enabling(s, email, clock, panel);
      && |e.state.sent| >= |s.sent| && e.state.sent[..|s.sent|] == s.sent
      && OnlinesRequest !in e.state.sent[|s.sent|..]
  {
    LookupSendsOnlyListAndLogin(s, email, clock, panel);
    var found := Lookup(s, email, clock, panel);
    var e := Enabling(s, email, clock, panel);
    if found.value.Some? {
      assert e.state.sent == found.state.sent + [UpdateFor(found.value.value, true)];
      assert e.state.sent[|s.sent|..] == found.state.sent[|s.sent|..] + [UpdateFor(found.value.value, true)];
    }
  }

  /** Enabling returns the record as found when the update succeeds, and nothing otherwise. */
  lemma EnablingResult(s: ApiState, email: string, clock: Clock, panel: PanelReplies)
    ensures var found := Lookup(s, email, clock, panel);
      var e := Enabling(s, email, clock, panel);
      && (e.value.Some? <==> found.value.Some? && Succeeded(panel.update))
      && (e.value.Some? ==> e.value.value == Changed(found.value.value.client, RemarkOf(found.value.value.inbound)))
      && (found.value.Some? ==> e.state.sent == found.state.sent + [UpdateFor(found.value.value, true)])
  {
  }

  // ---------------------------------------------------------------------------
  // The client object

  /** XUIApiClient: the cache fields it updates in place, and the requests it has sent. */
  class XuiApiClient {
    var inboundsCache: Option<seq<Inbound>>
    var inboundsCacheTime: real
    var sent: seq<Request>

    function State(): ApiState
      reads this
    {
      ApiState(inboundsCache, inboundsCacheTime, sent)
    }

    /** A fresh client: no cached list, cache time 0, nothing sent. */
    constructor ()
      ensures State() == ApiState(None, 0.0, [])
    {
      inboundsCache := None;
      inboundsCacheTime := 0.0;
      sent := [];
    }

    /** `login`: one login request; success is status 200 with a true "success". */
    method Login(reply: Reply) returns (ok: bool)
      modifies this
      ensures ok == Succeeded(reply)
      ensures State() == Send(old(State()), LoginRequest)
    {
      sent := sent + [LoginRequest];
      ok := reply.Response? && reply.status == 200 && reply.body.Some? && reply.body.value.success;
    }

    /** `_get_inbounds`. */
    method GetInbounds(clock: Clock, panel: PanelReplies) returns (inbounds: Option<seq<Inbound>>)
      modifies this
      ensures Step(inbounds, State()) == ListedInbounds(old(State()), clock, panel)
    {
      if clock.beforeFetch - inboundsCacheTime < CacheLifetime && inboundsCache.Some? && inboundsCache.value != [] {
        return inboundsCache;
      }
      sent := sent + [ListRequest];
      var reply := panel.list;
      if reply.Response? && reply.status == 200 && reply.body.Some? && reply.body.value.success {
        inboundsCache := Some(reply.body.value.obj.GetOr([]));
        inboundsCacheTime := clock.afterFetch;
        return inboundsCache;
      }
      if reply.Response? && reply.status == 401 {
        var relogged := Login(panel.relogin);
      }
      return None;
    }

    /** `find_client_by_email`. */
    method FindClientByEmail(email: string, clock: Clock, panel: PanelReplies) returns (found: Option<ClientMatch>)
      modifies this
      ensures Step(found, State()) == Lookup(old(State()), email, clock, panel)
    {
      var inbounds := GetInbounds(clock, panel);
      if inbounds.None? || inbounds.value == [] {
        return None;
      }
      found := FindClient(inbounds.value, email);
    }

    /** `_update_client_status`: submits the record with "enable" overridden. */
    method UpdateClientStatus(inboundId: Value, clientUuid: Option<Value>, client: Client, enable: bool, reply: Reply)
      returns (ok: bool)
      modifies this
      ensures ok == Succeeded(reply)
      ensures State() == Send(old(State()), UpdateRequest(inboundId, clientUuid, UpdateSettings(client, enable)))
    {
      var copy := client["enable" := Bool(enable)];
      var settings := Object(map["clients" := Array([Object(copy)])]);
      sent := sent + [UpdateRequest(inboundId, clientUuid, settings)];
      ok := reply.Response? && reply.status == 200 && reply.body.Some? && reply.body.value.success;
    }

    /** `_force_disconnect_all`. */
    method ForceDisconnectAll(reply: Reply) returns (ok: bool)
      modifies this
      ensures ok == Succeeded(reply)
      ensures State() == Send(old(State()), OnlinesRequest)
    {
      sent := sent + [OnlinesRequest];
      ok := reply.Response? && reply.status == 200 && reply.body.Some? && reply.body.value.success;
    }

    /** `disable_client`. */
    method DisableClient(email: string, clock: Clock, panel: PanelReplies) returns (result: Option<Changed>)
      modifies this
      ensures Step(result, State()) == Disabling(old(State()), email, clock, panel)
    {
      var found := FindClientByEmail(email, clock, panel);
      if found.None? {
        return None;
      }
      var m := found.value;
      var updated := UpdateClientStatus(m.inboundId, ClientUuid(m.client), m.client, false, panel.update);
      if !updated {
        return None;
      }
      var disconnected := ForceDisconnectAll(panel.onlines);
      result := Some(Changed(m.client, RemarkOf(m.inbound)));
    }

    /** `enable_client`. */
    method EnableClient(email: string, clock: Clock, panel: PanelReplies) returns (result: Option<Changed>)
      modifies this
      ensures Step(result, State()) == Enabling(old(State()), email, clock, panel)
    {
      var found := FindClientByEmail(email, clock, panel);
      if found.None? {
        return None;
      }
      var m := found.value;
      var updated := UpdateClientStatus(m.inboundId, ClientUuid(m.client), m.client, true, panel.update);
      if updated {
        return Some(Changed(m.client, RemarkOf(m.inbound)));
      }
      return None;
    }
  }
}
