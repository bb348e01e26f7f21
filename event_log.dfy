/** The records the traffic event logger posts to its time-series database
    (`EventLogger::logDetection` and `EventLogger::logCrossing` in
    core/hailo/libs/postprocesses/traffi/event_logger.cpp) and the rule by which `curl` reports
    success. The clock reading and the outcome of the HTTP request are parameters. */
module EventLog {
  import opened Wrappers
  import opened Text

  const NanosPerSecond := 1_000_000_000

  /** C++ integer division, which truncates toward zero. */
  function TruncDiv(a: int, b: int): (q: int)
    requires b > 0
    ensures a >= 0 ==> q * b <= a < (q + 1) * b
    ensures a < 0 ==> (q - 1) * b < a <= q * b
  {
    if a >= 0 then a / b else -((-a) / b)
  }

  /** `duration_cast<seconds>(now.time_since_epoch()).count()` for a clock reading taken in
      nanoseconds since the epoch: the whole seconds, truncated toward zero. */
  function EpochSeconds(sinceEpochNanos: int): (s: int)
    ensures sinceEpochNanos >= 0 ==> s * NanosPerSecond <= sinceEpochNanos < (s + 1) * NanosPerSecond
    ensures sinceEpochNanos < 0 ==> (s - 1) * NanosPerSecond < sinceEpochNanos <= s * NanosPerSecond
  {
    TruncDiv(sinceEpochNanos, NanosPerSecond)
  }

  /** How `operator<<` writes the `legal ? "true" : "false"` operand. */
  function BoolText(b: bool): (t: string)
    ensures t == "true" || t == "false"
    ensures t == "true" <==> b
  {
    if b then "true" else "false"
  }

  /** The detection record: measurement `detection`, the side in quotes, the vehicle id and
      the timestamp in whole seconds. */
  function DetectionRecord(vehicleId: int, side: string, seconds: int): string {
    "detection,side=\"" + side + "\" vehicle_id=" + IntToString(vehicleId) + " " + IntToString(seconds)
  }

  /** The crossing record: measurement `crossing`, the side and origin in quotes, the legality
      flag, the vehicle id and the timestamp in whole seconds. */
  function CrossingRecord(vehicleId: int, side: string, origin: string, legal: bool, seconds: int): string {
    "crossing,side=\"" + side + "\",origin=\"" + origin + "\",legal=" + BoolText(legal)
      + " vehicle_id=" + IntToString(vehicleId) + " " + IntToString(seconds)
  }

  /** The outcome of one HTTP request: whether `curl_easy_perform` succeeded, whether
      `curl_easy_getinfo` for the response code succeeded, and the response code it gave. */
  datatype Transfer = Transfer(performOk: bool, getinfoOk: bool, httpCode: int)

  /** The value `curl` returns: false without a handle; otherwise true exactly when the request
      was performed, its response code was read and that code is in the 2xx class. */
  function CurlSucceeded(hasHandle: bool, t: Transfer): (ok: bool)
    ensures ok <==> hasHandle && t.performOk && t.getinfoOk && 200 <= t.httpCode <= 299
  {
    if !hasHandle then false
    else if t.performOk then t.getinfoOk && TruncDiv(t.httpCode, 100) == 2
    else false
  }

  /** A detection event as read back from a record. */
  datatype DetectionEvent = DetectionEvent(vehicleId: int, side: string, seconds: int)

  /** A crossing event as read back from a record. */
  datatype CrossingEvent = CrossingEvent(vehicleId: int, side: string, origin: string, legal: bool, seconds: int)

  /** s without its prefix p, if p is a prefix of s. */
  function StripPrefix(p: string, s: string): (r: Option<string>)
    ensures r.Some? <==> |p| <= |s| && s[..|p|] == p
    ensures r.Some? ==> s == p + r.value
  {
    if |p| <= |s| && s[..|p|] == p then Some(s[|p|..]) else None
  }

  /** The text up to the first delim and the text after it, if s holds delim. */
  function Token(s: string, delim: char): (r: Option<(string, string)>)
    ensures r.Some? ==> delim !in r.value.0 && s == r.value.0 + [delim] + r.value.1
    ensures r.None? <==> delim !in s
  {
    if delim in s then Some(SplitAtFirst(s, delim)) else None
  }

  function ParseBool(s: string): Option<bool> {
    if s == "true" then Some(true) else if s == "false" then Some(false) else None
  }

  /** Reads a detection record back into its event. */
  function ParseDetectionRecord(line: string): Option<DetectionEvent> {
    var afterHead :- StripPrefix("detection,side=\"", line);
    var side :- Token(afterHead, '"');
    var afterKey :- StripPrefix(" vehicle_id=", side.1);
    var id :- Token(afterKey, ' ');
    var vehicleId :- ParseInt(id.0);
    var seconds :- ParseInt(id.1);
    Some(DetectionEvent(vehicleId, side.0, seconds))
  }

  /** Reads a crossing record back into its event. */
  function ParseCrossingRecord(line: string): Option<CrossingEvent> {
    var afterHead :- StripPrefix("crossing,side=\"", line);
    var side :- Token(afterHead, '"');
    var afterOriginKey :- StripPrefix(",origin=\"", side.1);
    var origin :- Token(afterOriginKey, '"');
    var afterLegalKey :- StripPrefix(",legal=", origin.1);
    var legalText :- Token(afterLegalKey, ' ');
    var legal :- ParseBool(legalText.0);
    var afterIdKey :- StripPrefix("vehicle_id=", legalText.1);
    var id :- Token(afterIdKey, ' ');
    var vehicleId :- ParseInt(id.0);
    var seconds :- ParseInt(id.1);
    Some(CrossingEvent(vehicleId, side.0, origin.0, legal, seconds))
  }
}

/** What the records promise: they can be read back whenever the inserted strings hold no
    double quote, and they cannot be when they may. */
module EventLogProperties {
  import opened Wrappers
  import opened Text
  import opened EventLog

  lemma StripPrefixOf(p: string, rest: string)
    ensures StripPrefix(p, p + rest) == Some(rest)
  {
    assert (p + rest)[..|p|] == p && (p + rest)[|p|..] == rest;
  }

  lemma TokenOf(token: string, delim: char, rest: string)
    requires delim !in token
    ensures Token(token + [delim] + rest, delim) == Some((token, rest))
  {
    SplitAtFirstToken(token, delim, rest);
    assert delim in token + [delim] + rest by {
      assert (token + [delim] + rest)[|token|] == delim;
    }
  }

  /** The decimal text of an integer holds neither a space nor a double quote. */
  lemma IntTextPlain(n: int)
    ensures ' ' !in IntToString(n) && '"' !in IntToString(n)
  {
    var s := IntToString(n);
    assert forall k :: 0 <= k < |s| ==> s[k] != ' ' && s[k] != '"';
  }

  /** The id and timestamp tail of both records reads back as the two integers. */
  lemma IdTailRoundTrip(vehicleId: int, seconds: int)
    ensures var tail := IntToString(vehicleId) + " " + IntToString(seconds);
            Token(tail, ' ') == Some((IntToString(vehicleId), IntToString(seconds)))
  {
    IntTextPlain(vehicleId);
    TokenOf(IntToString(vehicleId), ' ', IntToString(seconds));
  }

  /** The detection record regrouped field by field, the way it is read back. */
  lemma DetectionRecordShape(side: string, id: string, seconds: string)
    ensures "detection,side=\"" + side + "\" vehicle_id=" + id + " " + seconds
         == "detection,side=\"" + (side + ['"'] + (" vehicle_id=" + (id + " " + seconds)))
  {
    assert "\" vehicle_id=" == ['"'] + " vehicle_id=";
  }

  /** A detection record reads back as the event it was made from, when the side holds no double quote. */
  lemma DetectionRoundTrip(vehicleId: int, side: string, seconds: int)
    requires '"' !in side
    ensures ParseDetectionRecord(DetectionRecord(vehicleId, side, seconds)) == Some(DetectionEvent(vehicleId, side, seconds))
  {
    var head := "detection,side=\"";
    var tail := IntToString(vehicleId) + " " + IntToString(seconds);
    var afterSide := " vehicle_id=" + tail;
    DetectionRecordShape(side, IntToString(vehicleId), IntToString(seconds));
    StripPrefixOf(head, side + ['"'] + afterSide);
    TokenOf(side, '"', afterSide);
    StripPrefixOf(" vehicle_id=", tail);
    IdTailRoundTrip(vehicleId, seconds);
  }

  /** The crossing record regrouped field by field, the way it is read back. */
  lemma CrossingRecordShape(side: string, origin: string, legal: string, id: string, seconds: string)
    ensures "crossing,side=\"" + side + "\",origin=\"" + origin + "\",legal=" + legal + " vehicle_id=" + id + " " + seconds
         == "crossing,side=\"" + (side + ['"'] + (",origin=\"" + (origin + ['"'] + (",legal=" + (legal + [' '] + ("vehicle_id=" + (id + " " + seconds)))))))
  {
    assert "\",origin=\"" == ['"'] + ",origin=\"";
    assert "\",legal=" == ['"'] + ",legal=";
    assert " vehicle_id=" == [' '] + "vehicle_id=";
  }

  /** A crossing record reads back as the event it was made from, when neither side nor origin
      holds a double quote. */
  lemma CrossingRoundTrip(vehicleId: int, side: string, origin: string, legal: bool, seconds: int)
    requires '"' !in side && '"' !in origin
    ensures ParseCrossingRecord(CrossingRecord(vehicleId, side, origin, legal, seconds))
      == Some(CrossingEvent(vehicleId, side, origin, legal, seconds))
  {
    var tail := IntToString(vehicleId) + " " + IntToString(seconds);
    var afterLegal := "vehicle_id=" + tail;
    var afterOrigin := ",legal=" + (BoolText(legal) + [' '] + afterLegal);
    var afterSide := ",origin=\"" + (origin + ['"'] + afterOrigin);
    CrossingRecordShape(side, origin, BoolText(legal), IntToString(vehicleId), IntToString(seconds));
    StripPrefixOf("crossing,side=\"", side + ['"'] + afterSide);
    TokenOf(side, '"', afterSide);
    StripPrefixOf(",origin=\"", origin + ['"'] + afterOrigin);
    TokenOf(origin, '"', afterOrigin);
    StripPrefixOf(",legal=", BoolText(legal) + [' '] + afterLegal);
    assert ' ' !in BoolText(legal);
    TokenOf(BoolText(legal), ' ', afterLegal);
    StripPrefixOf("vehicle_id=", tail);
    IdTailRoundTrip(vehicleId, seconds);
  }

  /** The side and origin are inserted without escaping, so a side that ends in the text
      `",origin="` followed by more text makes the same record as a shorter side with that text
      moved to the front of the origin: two different crossings, one record. */
  lemma CrossingQuoteAmbiguity(vehicleId: int, side: string, moved: string, origin: string, legal: bool, seconds: int)
    ensures CrossingRecord(vehicleId, side + "\",origin=\"" + moved, origin, legal, seconds)
         == CrossingRecord(vehicleId, side, moved + "\",origin=\"" + origin, legal, seconds)
    ensures CrossingEvent(vehicleId, side + "\",origin=\"" + moved, origin, legal, seconds)
         != CrossingEvent(vehicleId, side, moved + "\",origin=\"" + origin, legal, seconds)
  {
    CrossingRecordsMeet(side, moved, origin, BoolText(legal), IntToString(vehicleId), IntToString(seconds));
    assert |side + "\",origin=\"" + moved| != |side|;
  }

  lemma CrossingRecordsMeet(side: string, moved: string, origin: string, legal: string, id: string, seconds: string)
    ensures var sep := "\",origin=\"";
      "crossing,side=\"" + (side + sep + moved) + sep + origin + "\",legal=" + legal + " vehicle_id=" + id + " " + seconds
      == "crossing,side=\"" + side + sep + (moved + sep + origin) + "\",legal=" + legal + " vehicle_id=" + id + " " + seconds
  {
    var key := ",origin=\"";
    var z := ",legal=" + (legal + [' '] + ("vehicle_id=" + (id + " " + seconds)));
    var w := origin + ['"'] + z;
    assert "\",origin=\"" == ['"'] + key;
    CrossingRecordShape(side + "\",origin=\"" + moved, origin, legal, id, seconds);
    CrossingRecordShape(side, moved + "\",origin=\"" + origin, legal, id, seconds);
    assert (moved + (['"'] + key) + origin) + ['"'] + z == moved + (['"'] + key) + w;
    assert side + (['"'] + key) + moved + ['"'] + (key + w) == side + ['"'] + (key + (moved + (['"'] + key) + w));
  }

  /** The timestamp is in whole seconds: every clock reading within one second after the
      epoch second t is recorded as t. */
  lemma {:induction false} EpochSecondsOfSecond(t: nat, offsetNanos: nat)
    requires offsetNanos < NanosPerSecond
    ensures EpochSeconds(t * NanosPerSecond + offsetNanos) == t
  {
  }
}
