/** The client-IP endpoint of the game: which request header names the caller. */
module ClientIP {
  import opened Strings

  /** The three headers the endpoint reads; `None` when the header is absent. */
  datatype Headers = Headers(forwarded: Option<string>, realIP: Option<string>, cfConnectingIP: Option<string>)

  /** The JSON reply: always successful, with the chosen IP and the raw headers echoed. */
  datatype IPReply = IPReply(success: bool, ip: string, headers: Headers)

  const LOCAL_FALLBACK: string := "127.0.0.1"

  /** A header value is used only when present and non-empty. */
  predicate Truthy(h: Option<string>) {
    h.Some? && h.value != ""
  }

  /** The IP the endpoint reports: the first entry of x-forwarded-for, trimmed; otherwise
      x-real-ip; otherwise cf-connecting-ip; otherwise the loopback address. */
  function ChosenIP(h: Headers): (ip: string)
    ensures Truthy(h.forwarded) ==> ip == Trim(FirstField(h.forwarded.value, ','))
    ensures !Truthy(h.forwarded) && Truthy(h.realIP) ==> ip == h.realIP.value
    ensures !Truthy(h.forwarded) && !Truthy(h.realIP) && Truthy(h.cfConnectingIP) ==> ip == h.cfConnectingIP.value
    ensures !Truthy(h.forwarded) && !Truthy(h.realIP) && !Truthy(h.cfConnectingIP) ==> ip == LOCAL_FALLBACK
  {
    if Truthy(h.forwarded) then Trim(FirstField(h.forwarded.value, ','))
    else if Truthy(h.realIP) then h.realIP.value
    else if Truthy(h.cfConnectingIP) then h.cfConnectingIP.value
    else LOCAL_FALLBACK
  }

  /** GET: the reply carries the chosen IP and the three headers exactly as received. */
  function Get(h: Headers): (reply: IPReply)
    ensures reply.success && reply.headers == h
    ensures reply.ip == ChosenIP(h)
  {
    IPReply(true, ChosenIP(h), h)
  }

  /** A non-empty x-forwarded-for decides the result whatever the other two headers hold. */
  lemma ForwardedWins(h: Headers, realIP: Option<string>, cf: Option<string>)
    requires Truthy(h.forwarded)
    ensures ChosenIP(h) == ChosenIP(Headers(h.forwarded, realIP, cf))
  {
  }

  /** An IP taken from x-forwarded-for never contains a comma nor surrounding white space. */
  lemma ForwardedEntryIsClean(h: Headers)
    requires Truthy(h.forwarded)
    ensures ',' !in ChosenIP(h)
    ensures ChosenIP(h) == Trim(ChosenIP(h))
  {
    TrimIdempotent(FirstField(h.forwarded.value, ','));
  }

  /** The endpoint answers with the empty string exactly when x-forwarded-for is non-empty
      but its first entry is blank, as in ", 1.2.3.4". */
  lemma EmptyIPIffBlankFirstEntry(h: Headers)
    ensures ChosenIP(h) == "" <==> Truthy(h.forwarded) && Blank(FirstField(h.forwarded.value, ','))
  {
    if Truthy(h.forwarded) {
      TrimEmptyIffBlank(FirstField(h.forwarded.value, ','));
    }
  }

  predicate Blank(s: string) {
    forall i :: 0 <= i < |s| ==> IsSpace(s[i])
  }

  /** The placeholder `unknown` is reported only when a header literally carries it. */
  lemma UnknownOnlyFromHeader(h: Headers)
    requires ChosenIP(h) == "unknown"
    ensures Truthy(h.forwarded) || h.realIP == Some("unknown") || h.cfConnectingIP == Some("unknown")
  {
  }
}
