/** Query strings: built by appending one encoded parameter after another, and what a server reads
    back from them. */
module Query {
  import opened MachineInts
  import opened Sequences
  import opened Text
  import opened UrlEncoding
  import opened Decimal

  /** A parameter with its values; a filter may list several. */
  datatype Param = Param(key: string, values: seq<string>)

  ghost predicate PlainKey(key: string) { Lacks(key, '&') && Lacks(key, '=') }

  ghost predicate WellFormed(p: Param) {
    PlainKey(p.key) && forall i :: 0 <= i < |p.values| ==> IsBytes(p.values[i])
  }

  function EncodeAll(values: seq<string>): (r: seq<string>)
    requires forall i :: 0 <= i < |values| ==> IsBytes(values[i])
    ensures |r| == |values| && forall i :: 0 <= i < |r| ==> r[i] == Encode(values[i])
  {
    if values == [] then [] else [Encode(values[0])] + EncodeAll(values[1..])
  }

  ghost function Pair(p: Param): string
    requires WellFormed(p) && p.values != []
  {
    p.key + ['='] + Join(EncodeAll(p.values), ',')
  }

  // ---------------------------------------------------------------- reading a query

  /** Position of the first `=`; the length when there is none. */
  function KeyLength(pair: string): (n: nat)
    ensures n <= |pair|
  {
    if pair == [] || pair[0] == '=' then 0 else 1 + KeyLength(pair[1..])
  }

  function DecodeAll(values: seq<string>): seq<Option<string>> {
    if values == [] then [] else [Decode(values[0])] + DecodeAll(values[1..])
  }

  datatype ReadParam = ReadParam(key: string, values: seq<Option<string>>)

  function ReadPair(pair: string): ReadParam {
    var n := KeyLength(pair);
    ReadParam(pair[..n], DecodeAll(Split(if n < |pair| then pair[n + 1..] else [], ',')))
  }

  function ReadPairs(pairs: seq<string>): seq<ReadParam> {
    if pairs == [] then [] else [ReadPair(pairs[0])] + ReadPairs(pairs[1..])
  }

  /** Cut at `&`, each piece at its first `=`, each value at `,`, and decode. */
  function ReadQueryPart(s: string): seq<ReadParam> {
    if s == [] then [] else ReadPairs(Split(s, '&'))
  }

  function ReadQuery(s: string): seq<ReadParam> {
    if s != [] && s[0] == '?' then ReadQueryPart(s[1..]) else []
  }

  function Known(values: seq<string>): seq<Option<string>> {
    if values == [] then [] else [Some(values[0])] + Known(values[1..])
  }

  /** What a server should read: the parameters with at least one value, in order. */
  function Expected(ps: seq<Param>): seq<ReadParam> {
    if ps == [] then []
    else
      var last := ps[|ps| - 1];
      Expected(ps[..|ps| - 1]) + (if last.values == [] then [] else [ReadParam(last.key, Known(last.values))])
  }

  // ---------------------------------------------------------------- one pair

  lemma {:induction false} KeyLengthIs(key: string, rest: string)
    requires Lacks(key, '=')
    ensures KeyLength(key + ['='] + rest) == |key|
  {
    var s := key + ['='] + rest;
    if key != [] {
      KeyLengthIs(key[1..], rest);
      assert s[1..] == key[1..] + ['='] + rest;
    }
  }

  lemma {:induction false} DecodeEncodeAll(values: seq<string>)
    requires forall i :: 0 <= i < |values| ==> IsBytes(values[i])
    ensures DecodeAll(EncodeAll(values)) == Known(values)
  {
    if values != [] {
      DecodeEncode(values[0]);
      DecodeEncodeAll(values[1..]);
    }
  }

  lemma PairIsRead(p: Param)
    requires WellFormed(p) && p.values != []
    ensures ReadPair(p.key + "=" + Join(EncodeAll(p.values), ',')) == ReadParam(p.key, Known(p.values))
    ensures Lacks(Pair(p), '&') && Pair(p) != []
  {
    var values := EncodeAll(p.values);
    forall i | 0 <= i < |values| ensures Lacks(values[i], ',') && Lacks(values[i], '&') {
      EncodedLacks(p.values[i], ',');
      EncodedLacks(p.values[i], '&');
    }
    var text := Join(values, ',');
    JoinLacks(values, ',', '&');
    SplitJoin(values, ',');
    KeyLengthIs(p.key, text);
    DecodeEncodeAll(p.values);
    assert Pair(p)[..|p.key|] == p.key && Pair(p)[|p.key| + 1..] == text;
  }

  // ---------------------------------------------------------------- building

  /** A query under construction: the text so far and whether it has a parameter yet. Both are updated
      in place by the appending functions. `params` records what was appended. */
  class QueryString {
    var query: string
    var hasParams: bool
    ghost var params: seq<Param>

    /** Everything appended so far can be read back. */
    ghost predicate Valid()
      reads this
    {
      && (hasParams <==> query != [])
      && (query != [] ==> query[0] == '?' && |query| > 1)
      && ReadQuery(query) == Expected(params)
    }

    constructor ()
      ensures Valid() && query == [] && params == []
    {
      query, hasParams, params := [], false, [];
    }

    method AppendParam(key: string, value: string)
      requires Valid() && PlainKey(key) && IsBytes(value)
      modifies this
      ensures Valid() && params == old(params) + [Param(key, [value])]
      ensures query == old(query) + (if old(hasParams) then "&" else "?") + (key + "=" + Encode(value))
    {
      var encoded := EncodeQueryValue(value);
      SinglePair(key, value);
      OnePairMore(query, Param(key, [value]), params);
      query := query + (if hasParams then "&" else "?") + (key + "=" + encoded);
      hasParams := true;
      params := params + [Param(key, [value])];
    }

    method AppendVectorParam(key: string, values: seq<string>)
      requires Valid() && PlainKey(key) && forall i :: 0 <= i < |values| ==> IsBytes(values[i])
      modifies this
      ensures Valid() && params == old(params) + [Param(key, values)]
      ensures values == [] ==> query == old(query)
      ensures values != [] ==>
                query == old(query) + (if old(hasParams) then "&" else "?") + (key + "=" + Join(EncodeAll(values), ','))
    {
      ghost var p := Param(key, values);
      if values == [] {
        assert (params + [p])[..|params|] == params;
        params := params + [p];
        return;
      }
      OnePairMore(query, p, params);
      var text := JoinEncoded(key + "=", values);
      query := query + (if hasParams then "&" else "?") + text;
      hasParams := true;
      params := params + [p];
    }

    /** A filter that is not set adds nothing to the text. */
    ghost method LeaveOut(key: string)
      requires Valid()
      modifies this`params
      ensures Valid() && params == old(params) + [Param(key, [])]
    {
      assert (params + [Param(key, [])])[..|params|] == params;
      params := params + [Param(key, [])];
    }
  }

  /** The comma-separated list, appended to `prefix` value by value. */
  method JoinEncoded(prefix: string, values: seq<string>) returns (text: string)
    requires values != [] && forall i :: 0 <= i < |values| ==> IsBytes(values[i])
    ensures text == prefix + Join(EncodeAll(values), ',')
  {
    text := prefix;
    ghost var all := EncodeAll(values);
    var first := true;
    for i := 0 to |values|
      invariant first <==> i == 0
      invariant text == JoinedUpTo(prefix, all, i)
    {
      JoinUpTo(prefix, all, i);
      if !first {
        text := text + ",";
      }
      var encoded := EncodeQueryValue(values[i]);
      text := text + encoded;
      first := false;
    }
    assert all[..|values|] == all;
  }

  function JoinedUpTo(prefix: string, all: seq<string>, i: nat): string
    requires i <= |all|
  {
    if i == 0 then prefix else prefix + Join(all[..i], ',')
  }

  lemma JoinUpTo(prefix: string, all: seq<string>, i: nat)
    requires i < |all|
    ensures i == 0 ==> JoinedUpTo(prefix, all, i + 1) == JoinedUpTo(prefix, all, i) + all[i]
    ensures i > 0 ==> JoinedUpTo(prefix, all, i + 1) == JoinedUpTo(prefix, all, i) + "," + all[i]
  {
    if i > 0 {
      assert all[..i + 1] == all[..i] + [all[i]];
      JoinSnoc(all[..i], all[i], ',');
    }
  }

  lemma SinglePair(key: string, value: string)
    requires PlainKey(key) && IsBytes(value)
    ensures Pair(Param(key, [value])) == key + "=" + Encode(value)
  {
    assert EncodeAll([value]) == [Encode(value)];
  }

  lemma {:induction false} ReadPairsSnoc(pairs: seq<string>, last: string)
    ensures ReadPairs(pairs + [last]) == ReadPairs(pairs) + [ReadPair(last)]
  {
    if pairs == [] {
      assert ReadPairs([last]) == [ReadPair(last)];
    } else {
      ReadPairsSnoc(pairs[1..], last);
      assert (pairs + [last])[1..] == pairs[1..] + [last];
    }
  }

  /** Appending a pair to the text appends its parameter to what is read. */
  lemma {:induction false} OnePairMorePart(body: string, p: Param, ps: seq<Param>)
    requires WellFormed(p) && p.values != [] && ReadQueryPart(body) == Expected(ps)
    ensures var s := body + (if body != [] then "&" else "") + Pair(p);
            ReadQueryPart(s) == Expected(ps + [p]) && s != []
  {
    PairIsRead(p);
    assert (ps + [p])[..|ps|] == ps;
    SplitWhole(Pair(p), '&');
    if body == [] {
      ReadPairsSnoc([], Pair(p));
      assert [] + [Pair(p)] == [Pair(p)];
      assert body + "" + Pair(p) == Pair(p);
    } else {
      assert body + "&" + Pair(p) == body + ['&'] + Pair(p);
      SplitConcat(body, '&', Pair(p));
      ReadPairsSnoc(Split(body, '&'), Pair(p));
    }
  }

  lemma {:induction false} OnePairMore(query: string, p: Param, ps: seq<Param>)
    requires query == [] || (query[0] == '?' && |query| > 1)
    requires WellFormed(p) && p.values != [] && ReadQuery(query) == Expected(ps)
    ensures var q := query + (if query != [] then "&" else "?") + Pair(p);
            ReadQuery(q) == Expected(ps + [p]) && q[0] == '?' && |q| > 1
  {
    var body := if query == [] then [] else query[1..];
    OnePairMorePart(body, p, ps);
    var q := query + (if query != [] then "&" else "?") + Pair(p);
    assert q[1..] == body + (if body != [] then "&" else "") + Pair(p);
  }

  // ---------------------------------------------------------------- the queries of the client

  datatype AlertsParams = AlertsParams(
    status: Option<seq<string>>,
    messageType: Option<string>,
    event: Option<string>,
    code: Option<string>,
    area: Option<seq<string>>,
    point: Option<string>,
    region: Option<seq<string>>,
    zone: Option<seq<string>>,
    urgency: Option<string>,
    severity: Option<string>,
    certainty: Option<string>,
    limit: Option<int>,
    cursor: Option<string>)

  datatype ObservationsParams = ObservationsParams(
    start: Option<string>, end: Option<string>, limit: Option<int>, cursor: Option<string>)

  ghost predicate Bytes(v: Option<string>) { v.Some? ==> IsBytes(v.value) }

  ghost predicate AllBytes(v: Option<seq<string>>) {
    v.Some? ==> forall i :: 0 <= i < |v.value| ==> IsBytes(v.value[i])
  }

  /** A filter that is not set is a parameter without values, and is left out like an empty list. */
  function One(key: string, v: Option<string>): Param { Param(key, if v.None? then [] else [v.value]) }

  function Many(key: string, v: Option<seq<string>>): Param { Param(key, if v.None? then [] else v.value) }

  function Number(key: string, v: Option<int>): Param { Param(key, if v.None? then [] else [Print(v.value)]) }

  ghost predicate AlertsAreBytes(p: AlertsParams) {
    && AllBytes(p.status) && Bytes(p.messageType) && Bytes(p.event) && Bytes(p.code) && AllBytes(p.area)
    && Bytes(p.point) && AllBytes(p.region) && AllBytes(p.zone) && Bytes(p.urgency) && Bytes(p.severity)
    && Bytes(p.certainty) && Bytes(p.cursor)
  }

  /** The alert filters, in the order the service documents them. */
  function AlertFilters(p: AlertsParams): seq<Param> { KindFilters(p) + PlaceFilters(p) + RankFilters(p) }

  function KindFilters(p: AlertsParams): seq<Param> {
    [Many("status", p.status),
     One("message_type", p.messageType),
     One("event", p.event),
     One("code", p.code)]
  }

  function PlaceFilters(p: AlertsParams): seq<Param> {
    [Many("area", p.area),
     One("point", p.point),
     Many("region", p.region),
     Many("zone", p.zone)]
  }

  function RankFilters(p: AlertsParams): seq<Param> {
    [One("urgency", p.urgency),
     One("severity", p.severity),
     One("certainty", p.certainty),
     Number("limit", p.limit),
     One("cursor", p.cursor)]
  }

  function ObservationFilters(p: ObservationsParams): seq<Param> {
    [One("start", p.start), One("end", p.end), Number("limit", p.limit), One("cursor", p.cursor)]
  }

  // ---------------------------------------------------------------- what is under a key

  /** The values under a key, none if it is not there. */
  function Under(read: seq<ReadParam>, key: string): seq<Option<string>> {
    if read == [] then []
    else if read[|read| - 1].key == key then read[|read| - 1].values
    else Under(read[..|read| - 1], key)
  }

  ghost predicate KeysDiffer(ps: seq<Param>) {
    forall i, j :: 0 <= i < j < |ps| ==> ps[i].key != ps[j].key
  }

  lemma {:induction false} OneMoreUnder(ps: seq<Param>, front: seq<Param>, last: Param, key: string)
    requires ps == front + [last]
    ensures Under(Expected(ps), key) ==
            if last.key == key && last.values != [] then Known(last.values) else Under(Expected(front), key)
  {
    assert ps[..|ps| - 1] == front;
    OneMoreExpected(ps);
  }

  lemma OneMoreExpected(ps: seq<Param>)
    requires ps != []
    ensures var (before, last, all) := (Expected(ps[..|ps| - 1]), ps[|ps| - 1], Expected(ps));
            if last.values == [] then all == before
            else all != [] && all[..|all| - 1] == before && all[|all| - 1] == ReadParam(last.key, Known(last.values))
  {
    var before := Expected(ps[..|ps| - 1]);
    assert before + [] == before;
  }

  lemma {:induction false} NotUnder(ps: seq<Param>, key: string)
    requires forall i :: 0 <= i < |ps| ==> ps[i].key != key
    ensures Under(Expected(ps), key) == []
  {
    if ps != [] {
      var n := |ps| - 1;
      NotUnder(ps[..n], key);
      assert ps == ps[..n] + [ps[n]];
      OneMoreUnder(ps, ps[..n], ps[n], key);
    }
  }

  /** Under each key a server finds that key's own values. */
  lemma {:induction false} UnderItsKey(ps: seq<Param>, i: nat)
    requires KeysDiffer(ps) && i < |ps|
    ensures Under(Expected(ps), ps[i].key) == Known(ps[i].values)
  {
    var n := |ps| - 1;
    assert ps == ps[..n] + [ps[n]];
    OneMoreUnder(ps, ps[..n], ps[n], ps[i].key);
    if i < n {
      UnderItsKey(ps[..n], i);
    } else {
      NotUnder(ps[..n], ps[n].key);
    }
  }

  lemma OneIsFound(ps: seq<Param>, i: nat, key: string, v: Option<string>)
    requires KeysDiffer(ps) && i < |ps| && ps[i] == One(key, v)
    ensures Under(Expected(ps), key) == if v.None? then [] else [v]
  {
    UnderItsKey(ps, i);
    if v.Some? {
      assert Known([v.value]) == [Some(v.value)] + Known([]);
    }
  }

  lemma ManyAreFound(ps: seq<Param>, i: nat, key: string, v: Option<seq<string>>)
    requires KeysDiffer(ps) && i < |ps| && ps[i] == Many(key, v)
    ensures Under(Expected(ps), key) == if v.None? then [] else Known(v.value)
  {
    UnderItsKey(ps, i);
  }

  lemma NumberIsFound(ps: seq<Param>, i: nat, key: string, v: Option<int>)
    requires KeysDiffer(ps) && i < |ps| && ps[i] == Number(key, v)
    ensures Under(Expected(ps), key) == if v.None? then [] else [Some(Print(v.value))]
  {
    OneIsFound(ps, i, key, if v.None? then None else Some(Print(v.value)));
  }

  /** Length and first letter of a key in one number. */
  ghost function Code(key: string): int { if key == [] then 0 else |key| * 256 + key[0] as int }

  lemma CodesTellKeysApart(ps: seq<Param>, codes: seq<int>)
    requires |ps| == |codes| && forall i :: 0 <= i < |ps| ==> Code(ps[i].key) == codes[i]
    requires forall i, j :: 0 <= i < j < |codes| ==> codes[i] != codes[j]
    ensures KeysDiffer(ps)
  {
  }

  lemma KindCodes(p: AlertsParams)
    ensures Code(KindFilters(p)[0].key) == 1651
    ensures Code(KindFilters(p)[1].key) == 3181
    ensures Code(KindFilters(p)[2].key) == 1381
    ensures Code(KindFilters(p)[3].key) == 1123
  {
    assert Code("status") == 1651;
    assert Code("message_type") == 3181;
    assert Code("event") == 1381;
    assert Code("code") == 1123;
  }

  lemma PlaceCodes(p: AlertsParams)
    ensures Code(PlaceFilters(p)[0].key) == 1121
    ensures Code(PlaceFilters(p)[1].key) == 1392
    ensures Code(PlaceFilters(p)[2].key) == 1650
    ensures Code(PlaceFilters(p)[3].key) == 1146
  {
    assert Code("area") == 1121;
    assert Code("point") == 1392;
    assert Code("region") == 1650;
    assert Code("zone") == 1146;
  }

  lemma RankCodes(p: AlertsParams)
    ensures Code(RankFilters(p)[0].key) == 1909
    ensures Code(RankFilters(p)[1].key) == 2163
    ensures Code(RankFilters(p)[2].key) == 2403
    ensures Code(RankFilters(p)[3].key) == 1388
    ensures Code(RankFilters(p)[4].key) == 1635
  {
    assert Code("urgency") == 1909;
    assert Code("severity") == 2163;
    assert Code("certainty") == 2403;
    assert Code("limit") == 1388;
    assert Code("cursor") == 1635;
  }

  const ALERT_CODES: seq<int> := [1651, 3181, 1381, 1123, 1121, 1392, 1650, 1146, 1909, 2163, 2403, 1388, 1635]

  lemma CodesDiffer()
    ensures forall i, j :: 0 <= i < j < |ALERT_CODES| ==> ALERT_CODES[i] != ALERT_CODES[j]
  {
  }

  lemma AlertKeysDiffer(p: AlertsParams)
    ensures KeysDiffer(AlertFilters(p))
  {
    KindCodes(p);
    PlaceCodes(p);
    RankCodes(p);
    ThreeParts(KindFilters(p), PlaceFilters(p), RankFilters(p), ALERT_CODES);
    CodesDiffer();
    CodesTellKeysApart(AlertFilters(p), ALERT_CODES);
  }

  lemma ThreeParts(a: seq<Param>, b: seq<Param>, c: seq<Param>, codes: seq<int>)
    requires |codes| == |a| + |b| + |c|
    requires forall i :: 0 <= i < |a| ==> Code(a[i].key) == codes[i]
    requires forall i :: 0 <= i < |b| ==> Code(b[i].key) == codes[|a| + i]
    requires forall i :: 0 <= i < |c| ==> Code(c[i].key) == codes[|a| + |b| + i]
    ensures forall i :: 0 <= i < |codes| ==> Code((a + b + c)[i].key) == codes[i]
  {
    forall i | 0 <= i < |codes| ensures Code((a + b + c)[i].key) == codes[i] {
      assert i >= |a| + |b| ==> (a + b + c)[i] == c[i - |a| - |b|];
      assert |a| <= i < |a| + |b| ==> (a + b + c)[i] == b[i - |a|];
    }
  }

  lemma KeysArePlain()
    ensures PlainKey("status") && PlainKey("message_type") && PlainKey("event") && PlainKey("code")
    ensures PlainKey("area") && PlainKey("point") && PlainKey("region") && PlainKey("zone")
    ensures PlainKey("urgency") && PlainKey("severity") && PlainKey("certainty")
    ensures PlainKey("limit") && PlainKey("cursor") && PlainKey("start") && PlainKey("end")
  {
  }

  method AppendOne(q: QueryString, key: string, v: Option<string>)
    requires q.Valid() && PlainKey(key) && Bytes(v)
    modifies q
    ensures q.Valid() && q.params == old(q.params) + [One(key, v)]
  {
    if v.Some? {
      q.AppendParam(key, v.value);
    } else {
      q.LeaveOut(key);
    }
  }

  method AppendMany(q: QueryString, key: string, v: Option<seq<string>>)
    requires q.Valid() && PlainKey(key) && AllBytes(v)
    modifies q
    ensures q.Valid() && q.params == old(q.params) + [Many(key, v)]
  {
    if v.Some? {
      q.AppendVectorParam(key, v.value);
    } else {
      q.LeaveOut(key);
    }
  }

  method AppendNumber(q: QueryString, key: string, v: Option<int>)
    requires q.Valid() && PlainKey(key)
    modifies q
    ensures q.Valid() && q.params == old(q.params) + [Number(key, v)]
  {
    if v.Some? {
      PrintedAlphabet(v.value);
      q.AppendParam(key, Print(v.value));
    } else {
      q.LeaveOut(key);
    }
  }

  /** ROUND TRIP. Reading the built query gives back exactly the filters that are set, in order, each
      with its decoded values; a filter set to an empty list is as good as not set. */
  method BuildAlertsQuery(p: AlertsParams) returns (query: string)
    requires AlertsAreBytes(p)
    ensures ReadQuery(query) == Expected(AlertFilters(p))
    ensures query == [] || query[0] == '?'
    ensures Under(ReadQuery(query), "status") == if p.status.None? then [] else Known(p.status.value)
    ensures Under(ReadQuery(query), "message_type") == if p.messageType.None? then [] else [p.messageType]
    ensures Under(ReadQuery(query), "event") == if p.event.None? then [] else [p.event]
    ensures Under(ReadQuery(query), "code") == if p.code.None? then [] else [p.code]
    ensures Under(ReadQuery(query), "area") == if p.area.None? then [] else Known(p.area.value)
    ensures Under(ReadQuery(query), "point") == if p.point.None? then [] else [p.point]
    ensures Under(ReadQuery(query), "region") == if p.region.None? then [] else Known(p.region.value)
    ensures Under(ReadQuery(query), "zone") == if p.zone.None? then [] else Known(p.zone.value)
    ensures Under(ReadQuery(query), "urgency") == if p.urgency.None? then [] else [p.urgency]
    ensures Under(ReadQuery(query), "severity") == if p.severity.None? then [] else [p.severity]
    ensures Under(ReadQuery(query), "certainty") == if p.certainty.None? then [] else [p.certainty]
    ensures Under(ReadQuery(query), "limit") == if p.limit.None? then [] else [Some(Print(p.limit.value))]
    ensures Under(ReadQuery(query), "cursor") == if p.cursor.None? then [] else [p.cursor]
  {
    query := AppendAlerts(p);
    ghost var ps := AlertFilters(p);
    AlertKeysDiffer(p);
    NothingMore(KindFilters(p));
    NothingMore(ps);
    Assoc(KindFilters(p), PlaceFilters(p), RankFilters(p));
    KindIsFound(p, [], PlaceFilters(p) + RankFilters(p), ps);
    PlaceIsFound(p, KindFilters(p), RankFilters(p), ps);
    RankIsFound(p, KindFilters(p) + PlaceFilters(p), [], ps);
  }

  method AppendAlerts(p: AlertsParams) returns (query: string)
    requires AlertsAreBytes(p)
    ensures ReadQuery(query) == Expected(AlertFilters(p))
    ensures query == [] || query[0] == '?'
  {
    var q := new QueryString();
    AppendKind(q, p);
    AppendPlace(q, p);
    AppendRank(q, p);
    NothingMore(KindFilters(p));
    query := q.query;
  }

  /** Appending one after another is appending the list. */
  lemma Listed(before: seq<Param>, ps: seq<Param>)
    ensures |ps| == 4 ==> before + [ps[0]] + [ps[1]] + [ps[2]] + [ps[3]] == before + ps
    ensures |ps| == 5 ==> before + [ps[0]] + [ps[1]] + [ps[2]] + [ps[3]] + [ps[4]] == before + ps
  {
  }

  method AppendKind(q: QueryString, p: AlertsParams)
    requires q.Valid() && AlertsAreBytes(p)
    modifies q
    ensures q.Valid() && q.params == old(q.params) + KindFilters(p)
  {
    KeysArePlain();
    ghost var before := q.params;
    AppendMany(q, "status", p.status);
    AppendOne(q, "message_type", p.messageType);
    AppendOne(q, "event", p.event);
    AppendOne(q, "code", p.code);
    Listed(before, KindFilters(p));
  }

  method AppendPlace(q: QueryString, p: AlertsParams)
    requires q.Valid() && AlertsAreBytes(p)
    modifies q
    ensures q.Valid() && q.params == old(q.params) + PlaceFilters(p)
  {
    KeysArePlain();
    ghost var before := q.params;
    AppendMany(q, "area", p.area);
    AppendOne(q, "point", p.point);
    AppendMany(q, "region", p.region);
    AppendMany(q, "zone", p.zone);
    Listed(before, PlaceFilters(p));
  }

  method AppendRank(q: QueryString, p: AlertsParams)
    requires q.Valid() && AlertsAreBytes(p)
    modifies q
    ensures q.Valid() && q.params == old(q.params) + RankFilters(p)
  {
    KeysArePlain();
    ghost var before := q.params;
    AppendOne(q, "urgency", p.urgency);
    AppendOne(q, "severity", p.severity);
    AppendOne(q, "certainty", p.certainty);
    AppendNumber(q, "limit", p.limit);
    AppendOne(q, "cursor", p.cursor);
    Listed(before, RankFilters(p));
  }

  lemma ElementBetween<T>(before: seq<T>, s: seq<T>, after: seq<T>, i: nat)
    requires i < |s|
    ensures (before + s + after)[|before| + i] == s[i]
  {
  }

  lemma KindIsFound(p: AlertsParams, before: seq<Param>, after: seq<Param>, ps: seq<Param>)
    requires KeysDiffer(ps) && ps == before + KindFilters(p) + after
    ensures Under(Expected(ps), "status") == if p.status.None? then [] else Known(p.status.value)
    ensures Under(Expected(ps), "message_type") == if p.messageType.None? then [] else [p.messageType]
    ensures Under(Expected(ps), "event") == if p.event.None? then [] else [p.event]
    ensures Under(Expected(ps), "code") == if p.code.None? then [] else [p.code]
  {
    var n, fs := |before|, KindFilters(p);
    ElementBetween(before, fs, after, 0);
    ElementBetween(before, fs, after, 1);
    ElementBetween(before, fs, after, 2);
    ElementBetween(before, fs, after, 3);
    ManyAreFound(ps, n + 0, "status", p.status);
    OneIsFound(ps, n + 1, "message_type", p.messageType);
    OneIsFound(ps, n + 2, "event", p.event);
    OneIsFound(ps, n + 3, "code", p.code);
  }

  lemma PlaceIsFound(p: AlertsParams, before: seq<Param>, after: seq<Param>, ps: seq<Param>)
    requires KeysDiffer(ps) && ps == before + PlaceFilters(p) + after
    ensures Under(Expected(ps), "area") == if p.area.None? then [] else Known(p.area.value)
    ensures Under(Expected(ps), "point") == if p.point.None? then [] else [p.point]
    ensures Under(Expected(ps), "region") == if p.region.None? then [] else Known(p.region.value)
    ensures Under(Expected(ps), "zone") == if p.zone.None? then [] else Known(p.zone.value)
  {
    var n, fs := |before|, PlaceFilters(p);
    ElementBetween(before, fs, after, 0);
    ElementBetween(before, fs, after, 1);
    ElementBetween(before, fs, after, 2);
    ElementBetween(before, fs, after, 3);
    ManyAreFound(ps, n + 0, "area", p.area);
    OneIsFound(ps, n + 1, "point", p.point);
    ManyAreFound(ps, n + 2, "region", p.region);
    ManyAreFound(ps, n + 3, "zone", p.zone);
  }

  lemma RankIsFound(p: AlertsParams, before: seq<Param>, after: seq<Param>, ps: seq<Param>)
    requires KeysDiffer(ps) && ps == before + RankFilters(p) + after
    ensures Under(Expected(ps), "urgency") == if p.urgency.None? then [] else [p.urgency]
    ensures Under(Expected(ps), "severity") == if p.severity.None? then [] else [p.severity]
    ensures Under(Expected(ps), "certainty") == if p.certainty.None? then [] else [p.certainty]
    ensures Under(Expected(ps), "limit") == if p.limit.None? then [] else [Some(Print(p.limit.value))]
    ensures Under(Expected(ps), "cursor") == if p.cursor.None? then [] else [p.cursor]
  {
    var n, fs := |before|, RankFilters(p);
    ElementBetween(before, fs, after, 0);
    ElementBetween(before, fs, after, 1);
    ElementBetween(before, fs, after, 2);
    ElementBetween(before, fs, after, 3);
    ElementBetween(before, fs, after, 4);
    OneIsFound(ps, n + 0, "urgency", p.urgency);
    OneIsFound(ps, n + 1, "severity", p.severity);
    OneIsFound(ps, n + 2, "certainty", p.certainty);
    NumberIsFound(ps, n + 3, "limit", p.limit);
    OneIsFound(ps, n + 4, "cursor", p.cursor);
  }

  method BuildObservationsQuery(p: ObservationsParams) returns (query: string)
    requires Bytes(p.start) && Bytes(p.end) && Bytes(p.cursor)
    ensures ReadQuery(query) == Expected(ObservationFilters(p))
    ensures query == [] || query[0] == '?'
    ensures Under(ReadQuery(query), "start") == if p.start.None? then [] else [p.start]
    ensures Under(ReadQuery(query), "end") == if p.end.None? then [] else [p.end]
    ensures Under(ReadQuery(query), "limit") == if p.limit.None? then [] else [Some(Print(p.limit.value))]
    ensures Under(ReadQuery(query), "cursor") == if p.cursor.None? then [] else [p.cursor]
  {
    KeysArePlain();
    var q := new QueryString();
    AppendOne(q, "start", p.start);
    AppendOne(q, "end", p.end);
    AppendNumber(q, "limit", p.limit);
    AppendOne(q, "cursor", p.cursor);
    assert q.params == ObservationFilters(p);
    query := q.query;
    ObservationsAreFound(p);
  }

  lemma ObservationsAreFound(p: ObservationsParams)
    ensures Under(Expected(ObservationFilters(p)), "start") == if p.start.None? then [] else [p.start]
    ensures Under(Expected(ObservationFilters(p)), "end") == if p.end.None? then [] else [p.end]
    ensures Under(Expected(ObservationFilters(p)), "limit") ==
            if p.limit.None? then [] else [Some(Print(p.limit.value))]
    ensures Under(Expected(ObservationFilters(p)), "cursor") == if p.cursor.None? then [] else [p.cursor]
  {
    var ps := ObservationFilters(p);
    assert |"start"| == |"limit"| == 5 && "start"[0] == 's' && "limit"[0] == 'l' && |"end"| == 3 && |"cursor"| == 6;
    OneIsFound(ps, 0, "start", p.start);
    OneIsFound(ps, 1, "end", p.end);
    NumberIsFound(ps, 2, "limit", p.limit);
    OneIsFound(ps, 3, "cursor", p.cursor);
  }

  /** The parameters of a paginated request; an empty cursor is no cursor. */
  function PageParams(cursor: Option<string>, limit: Option<int>): seq<Param> {
    [One("cursor", if cursor == Some("") then None else cursor), Number("limit", limit)]
  }

  /** The pagination query has no leading question mark. */
  method BuildPaginatedQuery(cursor: Option<string>, limit: Option<int>) returns (query: string)
    requires Bytes(cursor)
    ensures ReadQueryPart(query) == Expected(PageParams(cursor, limit))
    ensures Under(ReadQueryPart(query), "cursor") == if cursor in {None, Some("")} then [] else [cursor]
    ensures Under(ReadQueryPart(query), "limit") == if limit.None? then [] else [Some(Print(limit.value))]
  {
    query := CursorPart(cursor);
    query := AddLimit(query, limit, PageParams(cursor, limit));
    PageParamsAreFound(cursor, limit);
  }

  method CursorPart(cursor: Option<string>) returns (query: string)
    requires Bytes(cursor)
    ensures ReadQueryPart(query) == Expected([One("cursor", if cursor == Some("") then None else cursor)])
  {
    query := "";
    NoCursorIsRead();
    if cursor.Some? && cursor.value != "" {
      var encoded := EncodeQueryValue(cursor.value);
      query := query + ("cursor=" + encoded);
      CursorIsRead(cursor.value);
    }
  }

  method AddLimit(part: string, limit: Option<int>, ghost ps: seq<Param>) returns (query: string)
    requires |ps| == 2 && ps[1] == Number("limit", limit) && ReadQueryPart(part) == Expected([ps[0]])
    ensures ReadQueryPart(query) == Expected(ps)
  {
    query := part;
    assert ps == [ps[0]] + [ps[1]];
    OneMoreExpected(ps);
    if limit.Some? {
      LimitIsRead(part, limit.value, [ps[0]]);
      if query != "" {
        query := query + "&";
      }
      query := query + ("limit=" + Print(limit.value));
      assert query == part + (if part != [] then "&" else "") + ("limit=" + Print(limit.value));
    }
  }

  lemma PageParamsAreFound(cursor: Option<string>, limit: Option<int>)
    ensures var read := Expected(PageParams(cursor, limit));
            && Under(read, "cursor") == (if cursor in {None, Some("")} then [] else [cursor])
            && Under(read, "limit") == if limit.None? then [] else [Some(Print(limit.value))]
  {
    var ps := PageParams(cursor, limit);
    assert |"cursor"| == 6 && |"limit"| == 5;
    OneIsFound(ps, 0, "cursor", if cursor == Some("") then None else cursor);
    NumberIsFound(ps, 1, "limit", limit);
  }

  lemma NoCursorIsRead()
    ensures ReadQueryPart("") == Expected([One("cursor", None)])
  {
    OneMoreExpected([One("cursor", None)]);
    assert [One("cursor", None)][..0] == [];
  }

  lemma CursorIsRead(cursor: string)
    requires IsBytes(cursor) && cursor != ""
    ensures ReadQueryPart("" + ("cursor=" + Encode(cursor))) == Expected([One("cursor", Some(cursor))])
  {
    KeysArePlain();
    SinglePair("cursor", cursor);
    OnePairMorePart([], Param("cursor", [cursor]), []);
    assert [] + "" + Pair(Param("cursor", [cursor])) == "" + ("cursor=" + Encode(cursor));
    assert [] + [Param("cursor", [cursor])] == [One("cursor", Some(cursor))];
  }

  lemma LimitIsRead(body: string, limit: int, ps: seq<Param>)
    requires ReadQueryPart(body) == Expected(ps)
    ensures ReadQueryPart(body + (if body != [] then "&" else "") + ("limit=" + Print(limit)))
              == Expected(ps + [Number("limit", Some(limit))])
  {
    LimitPair(limit);
    OnePairMorePart(body, Param("limit", [Print(limit)]), ps);
  }

  lemma LimitPair(limit: int)
    ensures var p := Param("limit", [Print(limit)]);
            WellFormed(p) && Pair(p) == "limit=" + Print(limit)
  {
    KeysArePlain();
    PrintedAlphabet(limit);
    PlainNumber(Print(limit));
    SinglePair("limit", Print(limit));
  }

  lemma PlainNumber(digits: string)
    requires forall i :: 0 <= i < |digits| ==> IsDigit(digits[i]) || digits[i] == '-'
    ensures IsBytes(digits) && Encode(digits) == digits
  {
    EncodeIsIdentity(digits);
  }
}
