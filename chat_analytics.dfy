/** The chat-analytics panel: display formatting of client addresses and user agents, the set
    of expanded conversations, and merging fetched messages into the loaded analytics. */
module ChatAnalytics {
  import opened Strings

  datatype Message = Message(role: string, content: string, timestamp: int)

  /** One row of recent chats; `messages` is `None` until they are fetched. */
  datatype Chat = Chat(sessionId: string, userIp: string, userAgent: string, messageCount: int,
                       lastActivity: string, isActive: bool, messages: Option<seq<Message>>)

  datatype Summary = Summary(totalChats: int, totalMessages: int, uniqueIPs: int, activeChatsToday: int)

  datatype Analytics = Analytics(summary: Summary, recentChats: seq<Chat>, timestamp: string)

  const LOCAL_LABEL: string := "Local/Unknown"

  /** The placeholder and IPv6 loopback addresses read as local; every other address is shown
      as it is. */
  function FormatIP(ip: string): (shown: string)
    ensures ip == "unknown" || ip == "::1" ==> shown == LOCAL_LABEL
    ensures ip != "unknown" && ip != "::1" ==> shown == ip
  {
    if ip == "unknown" || ip == "::1" then LOCAL_LABEL else ip
  }

  /** Formatting an address twice is formatting it once. */
  lemma FormatIPIdempotent(ip: string)
    ensures FormatIP(FormatIP(ip)) == FormatIP(ip)
  {
  }

  /** The device class of a user agent. */
  function FormatUserAgent(ua: string): (device: string)
    ensures device in {"Unknown", "Mobile", "Tablet", "Desktop"}
    ensures device == "Unknown" <==> ua == "" || ua == "unknown"
    ensures device == "Mobile" <==> ua != "unknown" && Includes(ua, "Mobile")
  {
    if ua == "" || ua == "unknown" then "Unknown"
    else if Includes(ua, "Mobile") then "Mobile"
    else if Includes(ua, "Tablet") then "Tablet"
    else "Desktop"
  }

  /** "Mobile" takes precedence over "Tablet" in one user agent, and "Tablet" is reported only
      for agents that mention it but not "Mobile". */
  lemma TabletIff(ua: string)
    ensures FormatUserAgent(ua) == "Tablet" <==>
              ua != "unknown" && ua != "" && !Includes(ua, "Mobile") && Includes(ua, "Tablet")
  {
  }

  /** Flips whether the conversation `sessionId` is expanded. */
  function ToggleExpansion(expanded: set<string>, sessionId: string): (r: set<string>)
    ensures sessionId in r <==> sessionId !in expanded
    ensures forall id :: id != sessionId ==> (id in r <==> id in expanded)
  {
    if sessionId in expanded then expanded - {sessionId} else expanded + {sessionId}
  }

  /** Toggling the same conversation twice restores the set. */
  lemma ToggleTwice(expanded: set<string>, sessionId: string)
    ensures ToggleExpansion(ToggleExpansion(expanded, sessionId), sessionId) == expanded
  {
  }

  /** Puts `messages` on every chat of `sessionId`. */
  function WithMessages(chats: seq<Chat>, sessionId: string, messages: seq<Message>): (r: seq<Chat>)
    ensures |r| == |chats|
    ensures forall i :: 0 <= i < |chats| ==>
              r[i] == if chats[i].sessionId == sessionId then chats[i].(messages := Some(messages)) else chats[i]
  {
    seq(|chats|, i requires 0 <= i < |chats| =>
      if chats[i].sessionId == sessionId then chats[i].(messages := Some(messages)) else chats[i])
  }

  /** The panel state after fetching the messages of `sessionId`; `fetched` is `None` when the
      request fails. Nothing changes when it fails or when no analytics are loaded. */
  function FetchChatMessages(analytics: Option<Analytics>, sessionId: string, fetched: Option<seq<Message>>): (r: Option<Analytics>)
    ensures analytics.None? || fetched.None? ==> r == analytics
    ensures analytics.Some? && fetched.Some? ==>
              r.Some? && r.value.summary == analytics.value.summary && r.value.timestamp == analytics.value.timestamp
              && r.value.recentChats == WithMessages(analytics.value.recentChats, sessionId, fetched.value)
  {
    if analytics.Some? && fetched.Some? then
      Some(analytics.value.(recentChats := WithMessages(analytics.value.recentChats, sessionId, fetched.value)))
    else analytics
  }

  /** The fetch touches only the chats of that session and only their messages; fetching the
      same messages again changes nothing more. */
  lemma FetchIsLocal(a: Analytics, sessionId: string, fetched: seq<Message>, i: nat)
    requires i < |a.recentChats|
    ensures var r := FetchChatMessages(Some(a), sessionId, Some(fetched)).value;
            && |r.recentChats| == |a.recentChats|
            && r.recentChats[i].(messages := a.recentChats[i].messages) == a.recentChats[i]
            && (a.recentChats[i].sessionId != sessionId ==> r.recentChats[i] == a.recentChats[i])
            && (a.recentChats[i].sessionId == sessionId ==> r.recentChats[i].messages == Some(fetched))
    ensures var once := FetchChatMessages(Some(a), sessionId, Some(fetched));
            FetchChatMessages(once, sessionId, Some(fetched)) == once
  {
    var once := FetchChatMessages(Some(a), sessionId, Some(fetched));
    var twice := FetchChatMessages(once, sessionId, Some(fetched));
    assert twice.value.recentChats == once.value.recentChats;
  }
}
