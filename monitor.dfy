/**
 * The body of the fail2ban monitor loop: how one newly appended log line is
 * classified and handled, over the set of handled ban keys and the map from
 * banned IP to the email it was resolved to.
 *
 * The tail/follow loop, the clock and the notifier are outside: each call
 * handles one line, gets the formatted time and the access log's content as
 * inputs, and returns the notification it hands to the notifier.
 */
module Monitor {
  import opened Wrappers
  import opened Text
  import opened AccessLog
  import opened Panel

  /** Which branch a line takes: "Ban" is tested first, "Unban" only when "Ban" is absent. */
  datatype LineKind = BanLine | UnbanLine | OtherLine

  function Classify(line: string): LineKind
  {
    if Contains(line, "Ban") then BanLine
    else if Contains(line, "Unban") then UnbanLine
    else OtherLine
  }

  /** The de-duplication key of a ban: `f"{timestamp_str}-{ip_address}"`. */
  function BanKey(timestamp: string, ip: string): string
  {
    timestamp + "-" + ip
  }

  /** The message handed to the notifier after a successful disable or re-enable. */
  datatype Notice =
    | BanNotice(email: string, inboundRemark: Value, ip: string, time: string)
    | UnbanNotice(email: string, inboundRemark: Value, ip: string, time: string)

  /** What one line is handled against: the formatted time, the access log, the clock and the panel's replies. */
  datatype Event = Event(timestamp: string, accessLog: Option<string>, clock: Clock, panel: PanelReplies)

  /** The monitor's state: `processed_bans`, `banned_ip_to_email`, and the API client's. */
  datatype MonitorState = MonitorState(processedBans: set<string>, bannedIpToEmail: map<string, string>, api: ApiState)

  /** The state after one line, and the notice sent for it. */
  datatype Handled = Handled(state: MonitorState, notice: Option<Notice>)

  /** Every remembered email is non-empty (an empty one is never stored). */
  predicate EmailsNonEmpty(st: MonitorState)
  {
    forall ip :: ip in st.bannedIpToEmail ==> st.bannedIpToEmail[ip] != []
  }

  /** The Ban branch, once the key is new and the IP resolved to a non-empty email. */
  function BanResolved(st: MonitorState, ip: string, email: string, event: Event): Handled
  {
    var st1 := st.(bannedIpToEmail := st.bannedIpToEmail[ip := email], api := Send(st.api, LoginRequest));
    if !Succeeded(event.panel.login) then Handled(st1, None)
    else
      var d := Disabling(st1.api, email, event.clock, event.panel);
      Handled(st1.(api := d.state),
              if d.value.Some? then Some(BanNotice(email, d.value.value.inboundRemark, ip, event.timestamp)) else None)
  }

  /** The Unban branch, once the popped email is known and non-empty. */
  function UnbanFound(st: MonitorState, ip: string, email: string, event: Event): Handled
  {
    var st1 := st.(api := Send(st.api, LoginRequest));
    if !Succeeded(event.panel.login) then Handled(st1, None)
    else
      var e := Enabling(st1.api, email, event.clock, event.panel);
      Handled(st1.(api := e.state),
              if e.value.Some? then Some(UnbanNotice(email, e.value.value.inboundRemark, ip, event.timestamp)) else None)
  }

  /** What handling one line does to the state, and what it notifies. */
  function Handling(st: MonitorState, line: string, event: Event): Handled
  {
    var ip := LastToken(line);
    match Classify(line)
    case OtherLine => Handled(st, None)
    case BanLine =>
      var key := BanKey(event.timestamp, ip);
      if ip == [] || key in st.processedBans then Handled(st, None)
      else
        var st1 := st.(processedBans := st.processedBans + {key});
        var email := EmailForIp(ip, event.accessLog);
        if email.None? || email.value == [] then Handled(st1, None)
        else BanResolved(st1, ip, email.value, event)
    case UnbanLine =>
      var st1 := st.(bannedIpToEmail := st.bannedIpToEmail - {ip});
      if ip in st.bannedIpToEmail && st.bannedIpToEmail[ip] != [] then UnbanFound(st1, ip, st.bannedIpToEmail[ip], event)
      else Handled(st1, None)
  }

  // ---------------------------------------------------------------------------
  // Properties of one line's handling

  /** A line holding both "Ban" and "Unban" takes the Ban branch. */
  lemma BanTakesPriority(line: string)
    requires Contains(line, "Ban") && Contains(line, "Unban")
    ensures Classify(line) == BanLine
  {
  }

  /** A line of either kind has a last token, so `line.split()[-1]` never fails. */
  lemma ClassifiedLineHasIp(line: string)
    requires Classify(line) != OtherLine
    ensures LastToken(line) != []
  {
    var marker := if Classify(line) == BanLine then "Ban" else "Unban";
    ContainsChars(line, marker, |marker| - 1);
    assert marker[|marker| - 1] == 'n' && 'n' !in Whitespace;
    var k :| 0 <= k < |line| && line[k] == 'n';
    LastTokenIsLastRun(line);
  }

  /** A line with neither marker changes nothing and sends nothing. */
  lemma OtherLineChangesNothing(st: MonitorState, line: string, event: Event)
    requires !Contains(line, "Ban") && !Contains(line, "Unban")
    ensures Handling(st, line, event) == Handled(st, None)
  {
  }

  /** Handling a line never forgets a handled ban key, and adds at most this line's key. */
  lemma ProcessedBansOnlyGrow(st: MonitorState, line: string, event: Event)
    ensures var after := Handling(st, line, event).state.processedBans;
      st.processedBans <= after && after <= st.processedBans + {BanKey(event.timestamp, LastToken(line))}
  {
  }

  /** A Ban line whose key was already handled is ignored: no state change, no request, no notice. */
  lemma HandledBanKeyIgnored(st: MonitorState, line: string, event: Event)
    requires Classify(line) == BanLine
    requires BanKey(event.timestamp, LastToken(line)) in st.processedBans
    ensures Handling(st, line, event) == Handled(st, None)
  {
  }

  /** The same Ban line at the same timestamp is handled at most once. */
  lemma DuplicateBanHandledOnce(st: MonitorState, line: string, event: Event, again: Event)
    requires Classify(line) == BanLine && again.timestamp == event.timestamp
    ensures var st1 := Handling(st, line, event).state;
      Handling(st1, line, again) == Handled(st1, None)
  {
    ClassifiedLineHasIp(line);
  }

  /**
   * A new Ban whose IP resolves to a non-empty email records `ip -> email`
   * before logging in, whatever the login and the disable then return.
   */
  lemma BanRecordsMappingFirst(st: MonitorState, line: string, event: Event)
    requires Classify(line) == BanLine
    requires BanKey(event.timestamp, LastToken(line)) !in st.processedBans
    requires var email := EmailForIp(LastToken(line), event.accessLog); email.Some? && email.value != []
    ensures var ip := LastToken(line);
      var after := Handling(st, line, event).state;
      && after.bannedIpToEmail == st.bannedIpToEmail[ip := EmailForIp(ip, event.accessLog).value]
      && after.processedBans == st.processedBans + {BanKey(event.timestamp, ip)}
      && |after.api.sent| > |st.api.sent| && after.api.sent[|st.api.sent|] == LoginRequest
  {
    ClassifiedLineHasIp(line);
  }

  /** A new Ban whose IP does not resolve (or resolves to "") records only its key and sends nothing. */
  lemma UnresolvedBanOnlyRecordsKey(st: MonitorState, line: string, event: Event)
    requires Classify(line) == BanLine
    requires BanKey(event.timestamp, LastToken(line)) !in st.processedBans
    requires var email := EmailForIp(LastToken(line), event.accessLog); email.None? || email.value == []
    ensures Handling(st, line, event)
            == Handled(st.(processedBans := st.processedBans + {BanKey(event.timestamp, LastToken(line))}), None)
  {
    ClassifiedLineHasIp(line);
  }

  /** An Unban pops its IP: the mapping is gone afterwards whatever the panel answers. */
  lemma UnbanPopsMapping(st: MonitorState, line: string, event: Event)
    requires Classify(line) == UnbanLine
    ensures var after := Handling(st, line, event).state;
      && after.bannedIpToEmail == st.bannedIpToEmail - {LastToken(line)}
      && after.processedBans == st.processedBans
  {
  }

  /** An Unban for an IP with no remembered email makes no request and sends no notice. */
  lemma UnknownUnbanIgnored(st: MonitorState, line: string, event: Event)
    requires Classify(line) == UnbanLine && LastToken(line) !in st.bannedIpToEmail
    ensures Handling(st, line, event) == Handled(st, None)
  {
    assert st.bannedIpToEmail - {LastToken(line)} == st.bannedIpToEmail;
  }

  /** A second Unban for the same IP finds nothing. */
  lemma SecondUnbanFindsNothing(st: MonitorState, line: string, event: Event, again: Event)
    requires Classify(line) == UnbanLine
    ensures var st1 := Handling(st, line, event).state;
      Handling(st1, line, again) == Handled(st1, None)
  {
    var st1 := Handling(st, line, event).state;
    UnknownUnbanIgnored(st1, line, again);
  }

  /**
   * A Ban that records `ip -> email`, followed by an Unban of the same IP:
   * the Unban logs in to re-enable exactly that email, notifies (if at all)
   * about that email, and leaves the IP unmapped.
   */
  lemma BanThenUnbanRestoresEmail(st: MonitorState, banLine: string, unbanLine: string, ban: Event, unban: Event)
    requires Classify(banLine) == BanLine && Classify(unbanLine) == UnbanLine
    requires LastToken(banLine) == LastToken(unbanLine)
    requires BanKey(ban.timestamp, LastToken(banLine)) !in st.processedBans
    requires var email := EmailForIp(LastToken(banLine), ban.accessLog); email.Some? && email.value != []
    ensures var ip := LastToken(banLine);
      var email := EmailForIp(ip, ban.accessLog).value;
      var st1 := Handling(st, banLine, ban).state;
      var h := Handling(st1, unbanLine, unban);
      && h == UnbanFound(st1.(bannedIpToEmail := st1.bannedIpToEmail - {ip}), ip, email, unban)
      && ip !in h.state.bannedIpToEmail
      && h.state.api.sent[|st1.api.sent|] == LoginRequest
      && (h.notice.Some? ==> h.notice.value.email == email)
  {
    BanRecordsMappingFirst(st, banLine, ban);
  }

  /** Handling a line keeps every remembered email non-empty. */
  lemma HandleLineKeepsEmailsNonEmpty(st: MonitorState, line: string, event: Event)
    requires EmailsNonEmpty(st)
    ensures EmailsNonEmpty(Handling(st, line, event).state)
  {
  }

  // ---------------------------------------------------------------------------
  // The monitor object

  /** The monitor loop's state, updated in place one line at a time. */
  class BanMonitor {
    var processedBans: set<string>
    var bannedIpToEmail: map<string, string>
    const api: XuiApiClient

    function State(): MonitorState
      reads this, api
    {
      MonitorState(processedBans, bannedIpToEmail, api.State())
    }

    /** Empty collections around the given API client. */
    constructor (api: XuiApiClient)
      ensures this.api == api && processedBans == {} && bannedIpToEmail == map[]
      ensures api.State() == old(api.State())
    {
      this.api := api;
      processedBans := {};
      bannedIpToEmail := map[];
    }

    /** One iteration of the monitor loop for a line that was read. */
    method HandleLine(line: string, event: Event) returns (notice: Option<Notice>)
      modifies this, api
      ensures Handled(State(), notice) == Handling(old(State()), line, event)
    {
      notice := None;
      var ip := LastToken(line);
      if Contains(line, "Ban") {
        var key := BanKey(event.timestamp, ip);
        if ip != [] && key !in processedBans {
          processedBans := processedBans + {key};
          var email := FindEmailForIp(ip, event.accessLog);
          if email.Some? && email.value != [] {
            bannedIpToEmail := bannedIpToEmail[ip := email.value];
            var loggedIn := api.Login(event.panel.login);
            if loggedIn {
              var disabled := api.DisableClient(email.value, event.clock, event.panel);
              if disabled.Some? {
                notice := Some(BanNotice(email.value, disabled.value.inboundRemark, ip, event.timestamp));
              }
            }
          }
        }
      } else if Contains(line, "Unban") {
        var popped := if ip in bannedIpToEmail then Some(bannedIpToEmail[ip]) else None;
        bannedIpToEmail := bannedIpToEmail - {ip};
        if popped.Some? && popped.value != [] {
          var loggedIn := api.Login(event.panel.login);
          if loggedIn {
            var enabled := api.EnableClient(popped.value, event.clock, event.panel);
            if enabled.Some? {
              notice := Some(UnbanNotice(popped.value, enabled.value.inboundRemark, ip, event.timestamp));
            }
          }
        }
      }
    }
  }
}
