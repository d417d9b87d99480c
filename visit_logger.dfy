/**
  Visit logging (utils/logger.py): the Redis URL taken from the environment,
  the client address taken from the request headers, and the effect of one
  logged visit on the `visit_logs` list, newest first and capped at 1000.
  The Redis server is modelled by the list it keeps; whether a step of the
  logging raises is a parameter, since every such exception is swallowed.
 */
module VisitLogger {
  import opened Wrappers

  // ---------------------------------------------------------------------------
  // Redis URL
  // ---------------------------------------------------------------------------

  const PlainScheme: string := "redis://"
  const TlsScheme: string := "rediss://"

  /**
    A plain `redis://` prefix becomes `rediss://`, keeping the rest of the URL;
    any other URL is unchanged. The result never uses the plain scheme.
   */
  function RewriteScheme(url: string): (r: string)
    ensures !(PlainScheme <= r)
    ensures PlainScheme <= url ==> TlsScheme <= r && r[|TlsScheme|..] == url[|PlainScheme|..]
    ensures !(PlainScheme <= url) ==> r == url
  {
    if PlainScheme <= url then
      var secure := TlsScheme + url[|PlainScheme|..];
      TlsIsNotPlain(secure);
      secure
    else url
  }

  /** A rewritten URL no longer starts with the plain scheme. */
  lemma TlsIsNotPlain(url: string)
    requires TlsScheme <= url
    ensures !(PlainScheme <= url)
  {
    assert url[5] == TlsScheme[5] == 's';
    assert PlainScheme[5] == ':';
  }

  /** Rewriting twice is rewriting once: `rediss://` URLs are left alone. */
  lemma RewriteIdempotent(url: string)
    ensures RewriteScheme(RewriteScheme(url)) == RewriteScheme(url)
  {
    var once := RewriteScheme(url);
    if PlainScheme <= url {
      assert TlsScheme <= once;
      TlsIsNotPlain(once);
    }
  }

  /**
    The URL `get_redis_connection` connects to: none when `REDIS_URL` is unset or
    empty; otherwise a non-empty URL that is never a plain `redis://` one.
   */
  function RedisUrl(env: Option<string>): (r: Option<string>)
    ensures r.None? <==> env.None? || env.value == ""
    ensures r.Some? ==> r.value != "" && !(PlainScheme <= r.value)
    ensures r.Some? && !(PlainScheme <= env.value) ==> r.value == env.value
  {
    if env.None? || env.value == "" then None else Some(RewriteScheme(env.value))
  }

  /**
    `get_redis_connection`: a client for the URL, or none when there is no URL
    or when `redis.from_url` raises (`fromUrlRaises`), which is caught.
   */
  function RedisConnection(env: Option<string>, fromUrlRaises: bool): (r: Option<string>)
    ensures r.Some? <==> env.Some? && env.value != "" && !fromUrlRaises
    ensures r.Some? ==> !(PlainScheme <= r.value)
    ensures r.Some? && PlainScheme <= env.value ==> r.value == TlsScheme + env.value[|PlainScheme|..]
  {
    if fromUrlRaises then None else RedisUrl(env)
  }

  // ---------------------------------------------------------------------------
  // Client IP
  // ---------------------------------------------------------------------------

  type Headers = map<string, string>

  /** The headers consulted for the client address, highest priority first. */
  const IpHeaders: seq<string> := ["x-forwarded-for", "x-real-ip", "cf-connecting-ip", "x-client-ip"]

  /** The value of the first name in `names` that is a header, if any. */
  function FirstHeader(headers: Headers, names: seq<string>): (r: Option<string>)
    ensures r.None? <==> forall i :: 0 <= i < |names| ==> names[i] !in headers
    ensures r.Some? ==> exists i :: 0 <= i < |names| && names[i] in headers && r.value == headers[names[i]]
                                    && forall j :: 0 <= j < i ==> names[j] !in headers
  {
    if names == [] then None
    else if names[0] in headers then Some(headers[names[0]])
    else
      var rest := FirstHeader(headers, names[1..]);
      assert forall i :: 1 <= i < |names| ==> names[i] == names[1..][i - 1];
      rest
  }

  /** `s.split(',')[0]`: the text before the first comma, or all of it. */
  function BeforeComma(s: string): (r: string)
    ensures r <= s
    ensures ',' !in r
    ensures |r| < |s| ==> s[|r|] == ','
  {
    if s == [] || s[0] == ',' then []
    else [s[0]] + BeforeComma(s[1..])
  }

  /** The characters Python's `str.isspace` accepts. */
  predicate IsSpace(c: char)
  {
    c == ' ' || '\t' <= c <= '\r' || '\U{1C}' <= c <= '\U{1F}' || c == '\U{85}' || c == '\U{A0}'
    || c == '\U{1680}' || '\U{2000}' <= c <= '\U{200A}' || c == '\U{2028}' || c == '\U{2029}'
    || c == '\U{202F}' || c == '\U{205F}' || c == '\U{3000}'
  }

  /** Where `s.lstrip()` starts: the number of leading whitespace characters. */
  function LeadingSpaces(s: string): (n: nat)
    ensures n <= |s|
    ensures forall k :: 0 <= k < n ==> IsSpace(s[k])
    ensures n < |s| ==> !IsSpace(s[n])
  {
    if s != [] && IsSpace(s[0]) then
      var n := 1 + LeadingSpaces(s[1..]);
      assert forall k :: 1 <= k < n ==> s[k] == s[1..][k - 1];
      n
    else 0
  }

  /** Where `s.rstrip()` ends: the length without trailing whitespace. */
  function TrailingStart(s: string): (m: nat)
    ensures m <= |s|
    ensures forall k :: m <= k < |s| ==> IsSpace(s[k])
    ensures 0 < m ==> !IsSpace(s[m - 1])
  {
    if s != [] && IsSpace(s[|s| - 1]) then TrailingStart(s[..|s| - 1]) else |s|
  }

  /** `r` is the piece of `s` starting at `i`, with only whitespace around it. */
  predicate SpaceAround(s: string, r: string, i: nat)
  {
    i + |r| <= |s| && r == s[i..i + |r|]
    && (forall k :: 0 <= k < i ==> IsSpace(s[k]))
    && (forall k :: i + |r| <= k < |s| ==> IsSpace(s[k]))
  }

  /** `s.strip()`: a contiguous piece of `s` with only whitespace cut from either end. */
  function Strip(s: string): (r: string)
    ensures exists i: nat :: SpaceAround(s, r, i)
    ensures r != [] ==> !IsSpace(r[0]) && !IsSpace(r[|r| - 1])
    ensures forall x :: x in r ==> x in s
  {
    var n := LeadingSpaces(s);
    if n == |s| then
      assert SpaceAround(s, [], n);
      []
    else
      var m := TrailingStart(s);
      assert n < m;
      assert SpaceAround(s, s[n..m], n);
      s[n..m]
  }

  /** `get_client_ip`: the first address of the highest-priority header present. */
  function GetClientIp(headers: Headers): (r: Option<string>)
    ensures r.None? <==> forall i :: 0 <= i < |IpHeaders| ==> IpHeaders[i] !in headers
    ensures r.Some? ==> ',' !in r.value
    ensures r.Some? && r.value != [] ==> !IsSpace(r.value[0]) && !IsSpace(r.value[|r.value| - 1])
  {
    match FirstHeader(headers, IpHeaders)
    case None => None
    case Some(v) => Some(Strip(BeforeComma(v)))
  }

  /** The address comes from the first listed header that is present, even when its value is empty. */
  lemma ClientIpPriority(headers: Headers, k: nat)
    requires k < |IpHeaders| && IpHeaders[k] in headers
    requires forall j :: 0 <= j < k ==> IpHeaders[j] !in headers
    ensures GetClientIp(headers) == Some(Strip(BeforeComma(headers[IpHeaders[k]])))
  {
    var v := FirstHeader(headers, IpHeaders);
    var i :| 0 <= i < |IpHeaders| && IpHeaders[i] in headers && v.value == headers[IpHeaders[i]]
             && forall j :: 0 <= j < i ==> IpHeaders[j] !in headers;
    assert i == k;
  }

  /** The first element of a comma-separated value, and the whole value when it has no comma. */
  lemma {:induction false} BeforeFirstComma(a: string, rest: string)
    requires ',' !in a
    ensures BeforeComma(a + [','] + rest) == a
    ensures BeforeComma(a) == a
  {
    if a != [] {
      BeforeFirstComma(a[1..], rest);
      assert (a + [','] + rest)[1..] == a[1..] + [','] + rest;
    }
  }

  lemma FirstOfChain()
    ensures BeforeComma(" 203.0.113.7 , 10.0.0.1") == " 203.0.113.7 "
  {
    assert " 203.0.113.7 , 10.0.0.1" == " 203.0.113.7 " + [','] + " 10.0.0.1";
    BeforeFirstComma(" 203.0.113.7 ", " 10.0.0.1");
  }

  lemma StripOfPadded()
    ensures Strip(" 203.0.113.7 ") == "203.0.113.7"
  {
    var s := " 203.0.113.7 ";
    assert LeadingSpaces(s[1..]) == 0;
    assert TrailingStart(s[..12]) == 12;
    assert s[1..12] == "203.0.113.7";
  }

  /** A proxy chain gives its first address, stripped; an empty forwarded-for header beats a real-ip header. */
  lemma ClientIpExamples()
    ensures GetClientIp(map["x-forwarded-for" := " 203.0.113.7 , 10.0.0.1"]) == Some("203.0.113.7")
    ensures GetClientIp(map["x-forwarded-for" := "", "x-real-ip" := "198.51.100.2"]) == Some("")
  {
    ClientIpPriority(map["x-forwarded-for" := " 203.0.113.7 , 10.0.0.1"], 0);
    FirstOfChain();
    StripOfPadded();
    ClientIpPriority(map["x-forwarded-for" := "", "x-real-ip" := "198.51.100.2"], 0);
  }

  // ---------------------------------------------------------------------------
  // Visit log
  // ---------------------------------------------------------------------------

  /** `LTRIM visit_logs 0 999` keeps the first 1000 entries. */
  const LogCapacity: nat := 1000

  /** The `data` passed to `log_visit`: an optional request (seen through its headers) and optional headers. */
  datatype VisitData = VisitData(request: Option<Headers>, headers: Option<Headers>)

  /** One `clean_data` record, before JSON encoding. */
  datatype Visit = Visit(timestamp: int, ip: Option<string>, headers: Headers)

  /** Where the `try` block of `log_visit` raises, if it does; the exception is printed and dropped. */
  datatype LogFault =
    | NoFault
    | RecordFails  // building or encoding the record raises (e.g. unserialisable headers)
    | PushFails    // LPUSH raises
    | TrimFails    // LTRIM raises after the push went through

  /** The record `log_visit` builds from `data` at time `now`. */
  function VisitRecord(data: VisitData, now: int): (r: Visit)
    ensures r.timestamp == now
    ensures data.request.None? ==> r.ip.None?
    ensures data.request.Some? ==> r.ip == GetClientIp(data.request.value)
    ensures r.headers == if data.headers.Some? then data.headers.value else map[]
  {
    Visit(now,
          if data.request.Some? then GetClientIp(data.request.value) else None,
          if data.headers.Some? then data.headers.value else map[])
  }

  /** `LTRIM key 0 999`. */
  function Trimmed(logs: seq<Visit>): (r: seq<Visit>)
    ensures |r| == if |logs| <= LogCapacity then |logs| else LogCapacity
    ensures r <= logs
  {
    if |logs| <= LogCapacity then logs else logs[..LogCapacity]
  }

  /** The list after one `log_visit` call, given the client it obtained and the fault it hit. */
  function LoggedList(logs: seq<Visit>, client: Option<string>, record: Visit, fault: LogFault): (r: seq<Visit>)
    ensures r == logs || (r != [] && r[0] == record && r[1..] <= logs)
    ensures r != logs ==> client.Some? && (fault.NoFault? || fault.TrimFails?)
    ensures client.Some? && fault == NoFault ==> |r| <= LogCapacity
  {
    if client.None? || fault == RecordFails || fault == PushFails then logs
    else if fault == TrimFails then [record] + logs
    else Trimmed([record] + logs)
  }

  /** The Redis list `visit_logs`, newest visit first. */
  class VisitStore {
    var visitLogs: seq<Visit>

    constructor()
      ensures visitLogs == []
    {
      visitLogs := [];
    }

    /** `log_visit`: push the visit record, then trim to the newest 1000; errors are swallowed. */
    method LogVisit(env: Option<string>, fromUrlRaises: bool, data: VisitData, now: int, fault: LogFault)
      modifies this
      ensures visitLogs == LoggedList(old(visitLogs), RedisConnection(env, fromUrlRaises),
                                      VisitRecord(data, now), fault)
    {
      var client := RedisConnection(env, fromUrlRaises);
      if client.None? {
        return;
      }
      if fault == RecordFails {
        return;
      }
      var record := VisitRecord(data, now);
      if fault == PushFails {
        return;
      }
      visitLogs := [record] + visitLogs;
      if fault == TrimFails {
        return;
      }
      if |visitLogs| > LogCapacity {
        visitLogs := visitLogs[..LogCapacity];
      }
    }
  }

  /**
    After a visit logged without error, the new record is at the head, the
    previous records follow in their order, and at most 1000 are kept.
   */
  lemma LoggedVisitAtHead(logs: seq<Visit>, client: string, record: Visit)
    ensures var r := LoggedList(logs, Some(client), record, NoFault);
            r != [] && r[0] == record && r[1..] <= logs && |r| <= LogCapacity
            && |r| == if |logs| < LogCapacity then |logs| + 1 else LogCapacity
  {
    var r := LoggedList(logs, Some(client), record, NoFault);
    assert r <= [record] + logs;
    assert r[1..] == ([record] + logs)[1..|r|];
    assert ([record] + logs)[1..|r|] == logs[..|r| - 1];
  }

  /** Without a client, or when the push itself fails, the list is untouched. */
  lemma NothingLoggedWithoutPush(logs: seq<Visit>, client: Option<string>, record: Visit, fault: LogFault)
    requires client.None? || fault == RecordFails || fault == PushFails
    ensures LoggedList(logs, client, record, fault) == logs
  {
  }

  /** A failed trim leaves the pushed record in place and the list one longer, possibly past 1000. */
  lemma FailedTrimKeepsPush(logs: seq<Visit>, client: string, record: Visit)
    ensures LoggedList(logs, Some(client), record, TrimFails) == [record] + logs
    ensures |LoggedList(logs, Some(client), record, TrimFails)| == |logs| + 1
  {
  }

  /** A list already within the cap stays within it after a clean log. */
  lemma CapPreserved(logs: seq<Visit>, client: Option<string>, record: Visit)
    requires |logs| <= LogCapacity
    ensures |LoggedList(logs, client, record, NoFault)| <= LogCapacity
  {
  }
}
