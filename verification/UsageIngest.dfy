/** Ingest of broker-reported usage: strict parsing, all-or-nothing batches, first report wins. */
module UsageIngest {
  import opened Common

  /** A decoded JSON value; `Fraction` is a number that is not an integer. */
  datatype Json =
    | Null
    | Bool(b: bool)
    | Integer(n: int)
    | Fraction(raw: string)
    | Text(s: string)
    | List(items: seq<Json>)
    | Object(fields: map<string, Json>)

  type Fields = map<string, Json>

  /** What the timestamp parser makes of a string: nothing, an impossible date (it raises), or a moment
      in microseconds with or without a timezone. */
  datatype DateResult = Unrecognized | Impossible | Naive(local: int) | Aware(at: int)

  type DateParser = string -> DateResult

  const MAX_EVENTS_PER_REPORT := 500
  const MAX_FUTURE_CLOCK_SKEW := 300_000_000
  const LLM := "llm"
  const QUANTITY_KEYS := [
    "input_tokens", "output_tokens", "cache_read_tokens", "cache_write_tokens", "reasoning_tokens"
  ]

  /** The validated part of an event. */
  datatype Fact = Fact(key: string, source: string, subkey: string, quantities: map<string, int>, occurredAt: int)

  datatype Problem =
    | BadKey
    | BadSubkey
    | NoQuantities
    | UnknownQuantity
    | BadQuantity
    | NoTimestamp
    | BadTimestamp
    | InFuture

  /** `Raises` is an exception the endpoint does not catch: the request fails before anything is stored. */
  datatype Parsed = Valid(fact: Fact) | Invalid(problem: Problem) | UnknownSource | Raises

  function Get(fields: Fields, name: string): Json {
    if name in fields then fields[name] else Null
  }

  // ---------------------------------------------------------------------- parsing

  /** An absent quantity reads as 0; a boolean is not an integer. */
  function Quantity(reported: Fields, name: string): Json {
    if name in reported then reported[name] else Integer(0)
  }

  predicate IsQuantity(value: Json) {
    value.Integer? && value.n >= 0
  }

  predicate AllQuantities(reported: Fields, names: seq<string>) {
    forall name | name in names :: IsQuantity(Quantity(reported, name))
  }

  function QuantitiesOf(reported: Fields, names: seq<string>): map<string, int>
    requires AllQuantities(reported, names)
  {
    map name | name in names :: Quantity(reported, name).n
  }

  /** Everything after the source is known to be billable. */
  function ParseBillable(event: Fields, key: string, now: int, parseDate: DateParser): Parsed {
    var subkey, quantities, occurredAt := Get(event, "subkey"), Get(event, "quantities"), Get(event, "occurred_at");
    if !subkey.Text? || |subkey.s| > 255 then Invalid(BadSubkey)
    else if !quantities.Object? then Invalid(NoQuantities)
    else if exists name :: name in quantities.fields && name !in QUANTITY_KEYS then Invalid(UnknownQuantity)
    else if !AllQuantities(quantities.fields, QUANTITY_KEYS) then Invalid(BadQuantity)
    else if !occurredAt.Text? then Invalid(NoTimestamp)
    else
      match parseDate(occurredAt.s)
      case Impossible => Raises
      case Unrecognized => Invalid(BadTimestamp)
      case Naive(_) => Invalid(BadTimestamp)
      case Aware(at) =>
        if at > now + MAX_FUTURE_CLOCK_SKEW then Invalid(InFuture)
        else Valid(Fact(key, LLM, subkey.s, QuantitiesOf(quantities.fields, QUANTITY_KEYS), at))
  }

  /** A source that cannot be looked up (a list or an object is not hashable) raises; any other unknown one is
      skipped. */
  function Parse(event: Fields, now: int, parseDate: DateParser): Parsed {
    var key, source := Get(event, "idempotency_key"), Get(event, "source");
    if !key.Text? || !(1 <= |key.s| <= 128) then Invalid(BadKey)
    else if source.List? || source.Object? then Raises
    else if source != Text(LLM) then UnknownSource
    else ParseBillable(event, key.s, now, parseDate)
  }

  /** The loop that fills the quantities dictionary in its stored order, up to the first bad one. */
  method ReadQuantities(reported: Fields) returns (quantities: map<string, int>, ok: bool)
    ensures ok <==> AllQuantities(reported, QUANTITY_KEYS)
    ensures ok ==> quantities == QuantitiesOf(reported, QUANTITY_KEYS)
  {
    quantities := map[];
    for i := 0 to |QUANTITY_KEYS|
      invariant AllQuantities(reported, QUANTITY_KEYS[..i])
      invariant quantities == QuantitiesOf(reported, QUANTITY_KEYS[..i])
    {
      var name := QUANTITY_KEYS[i];
      assert QUANTITY_KEYS[..i + 1] == QUANTITY_KEYS[..i] + [name];
      var quantity := Quantity(reported, name);
      if !IsQuantity(quantity) {
        assert name in QUANTITY_KEYS;
        return quantities, false;
      }
      quantities := quantities[name := quantity.n];
    }
    assert QUANTITY_KEYS[..|QUANTITY_KEYS|] == QUANTITY_KEYS;
    ok := true;
  }

  method ParseEvent(event: Fields, now: int, parseDate: DateParser) returns (parsed: Parsed)
    ensures parsed == Parse(event, now, parseDate)
    ensures parsed.Valid? <==> IsBillable(event, now, parseDate)
  {
    ValidIffBillable(event, now, parseDate);
    var key := Get(event, "idempotency_key");
    if !key.Text? || !(1 <= |key.s| <= 128) {
      return Invalid(BadKey);
    }
    var source := Get(event, "source");
    if source.List? || source.Object? {
      return Raises;
    }
    if source != Text(LLM) {
      return UnknownSource;
    }
    var subkey := Get(event, "subkey");
    if !subkey.Text? || |subkey.s| > 255 {
      return Invalid(BadSubkey);
    }
    var reported := Get(event, "quantities");
    if !reported.Object? {
      return Invalid(NoQuantities);
    }
    if exists name :: name in reported.fields && name !in QUANTITY_KEYS {
      return Invalid(UnknownQuantity);
    }
    var quantities, ok := ReadQuantities(reported.fields);
    if !ok {
      return Invalid(BadQuantity);
    }
    var occurredAt := Get(event, "occurred_at");
    if !occurredAt.Text? {
      return Invalid(NoTimestamp);
    }
    match parseDate(occurredAt.s)
    case Impossible => return Raises;
    case Unrecognized => return Invalid(BadTimestamp);
    case Naive(_) => return Invalid(BadTimestamp);
    case Aware(at) =>
      if at > now + MAX_FUTURE_CLOCK_SKEW {
        return Invalid(InFuture);
      }
      return Valid(Fact(key.s, LLM, subkey.s, quantities, at));
  }

  /** A stored event carries exactly the five quantities, none negative, under a key of legal length. */
  lemma ValidEventsAreComplete(event: Fields, now: int, parseDate: DateParser)
    requires Parse(event, now, parseDate).Valid?
    ensures var fact := Parse(event, now, parseDate).fact;
            && 1 <= |fact.key| <= 128 && |fact.subkey| <= 255 && fact.source == LLM
            && fact.quantities.Keys == (set name | name in QUANTITY_KEYS)
            && (forall name | name in fact.quantities :: fact.quantities[name] >= 0)
            && fact.occurredAt <= now + MAX_FUTURE_CLOCK_SKEW
  {}

  /** When an event is billable, field by field and independent of the order of the checks. */
  ghost predicate IsBillable(event: Fields, now: int, parseDate: DateParser) {
    && HasLegalKey(event)
    && Get(event, "source") == Text("llm")
    && Get(event, "subkey").Text? && |Get(event, "subkey").s| <= 255
    && Get(event, "quantities").Object? && AreQuantities(Get(event, "quantities").fields)
    && Get(event, "occurred_at").Text? && IsTimely(parseDate(Get(event, "occurred_at").s), now)
  }

  predicate HasLegalKey(event: Fields) {
    "idempotency_key" in event && event["idempotency_key"].Text? && 1 <= |event["idempotency_key"].s| <= 128
  }

  /** At most five minutes ahead, in microseconds. */
  predicate IsTimely(date: DateResult, now: int) {
    date.Aware? && date.at <= now + 5 * 60 * 1_000_000
  }

  /** Only the five names, and nothing but non-negative integers under them. */
  ghost predicate AreQuantities(reported: Fields) {
    forall name | name in reported :: IsQuantityName(name) && reported[name].Integer? && reported[name].n >= 0
  }

  predicate IsQuantityName(name: string) {
    || name == "input_tokens" || name == "output_tokens" || name == "cache_read_tokens"
    || name == "cache_write_tokens" || name == "reasoning_tokens"
  }

  lemma QuantityNamesIff(name: string)
    ensures IsQuantityName(name) <==> name in QUANTITY_KEYS
  {}

  lemma QuantitiesIff(reported: Fields)
    ensures AreQuantities(reported) <==>
            (forall name | name in reported :: name in QUANTITY_KEYS) && AllQuantities(reported, QUANTITY_KEYS)
  {
    forall name { QuantityNamesIff(name); }
    if AreQuantities(reported) {
      forall name | name in QUANTITY_KEYS ensures IsQuantity(Quantity(reported, name)) {}
    } else {
      forall name | name in reported && name in QUANTITY_KEYS ensures Quantity(reported, name) == reported[name] {}
    }
  }

  /** An event is valid exactly when it is billable. */
  lemma ValidIffBillable(event: Fields, now: int, parseDate: DateParser)
    ensures Parse(event, now, parseDate).Valid? <==> IsBillable(event, now, parseDate)
  {
    var quantities := Get(event, "quantities");
    if quantities.Object? {
      QuantitiesIff(quantities.fields);
    }
  }

  /** And then it is stored as reported, with 0 for an absent quantity. */
  lemma ValidIsStoredAsReported(event: Fields, now: int, parseDate: DateParser)
    requires Parse(event, now, parseDate).Valid?
    ensures var fact := Parse(event, now, parseDate).fact;
            && Get(event, "idempotency_key") == Text(fact.key) && Get(event, "subkey") == Text(fact.subkey)
            && Get(event, "occurred_at").Text? && parseDate(Get(event, "occurred_at").s) == Aware(fact.occurredAt)
            && Get(event, "quantities").Object?
            && var reported := Get(event, "quantities").fields;
               forall name | IsQuantityName(name) :: name in fact.quantities &&
                 fact.quantities[name] == if name in reported then reported[name].n else 0
  {
    forall name { QuantityNamesIff(name); }
  }

  /** An event makes the endpoint fail exactly when its source is a list or an object, or when everything before its
      timestamp is in order and the timestamp is an impossible date. */
  lemma RaisesIff(event: Fields, now: int, parseDate: DateParser)
    ensures Parse(event, now, parseDate) == Raises <==>
            && HasLegalKey(event)
            && (|| Get(event, "source").List? || Get(event, "source").Object?
                || (&& Get(event, "source") == Text("llm")
                    && Get(event, "subkey").Text? && |Get(event, "subkey").s| <= 255
                    && Get(event, "quantities").Object? && AreQuantities(Get(event, "quantities").fields)
                    && Get(event, "occurred_at").Text? && parseDate(Get(event, "occurred_at").s) == Impossible))
  {
    var quantities := Get(event, "quantities");
    if quantities.Object? {
      QuantitiesIff(quantities.fields);
    }
  }

  /** An event is skipped exactly when its key is legal and its source is a scalar other than the known one. */
  lemma SkippedIff(event: Fields, now: int, parseDate: DateParser)
    ensures Parse(event, now, parseDate) == UnknownSource <==>
            && HasLegalKey(event) && Get(event, "source") != Text("llm")
            && !Get(event, "source").List? && !Get(event, "source").Object?
  {
  }

  /** Time can only turn "in the future" into a valid event; nothing valid ever becomes anything else. */
  lemma LaterParsesTheSame(event: Fields, now: int, later: int, parseDate: DateParser)
    requires now <= later
    ensures Parse(event, now, parseDate) != Invalid(InFuture) ==>
            Parse(event, later, parseDate) == Parse(event, now, parseDate)
  {}

  // ---------------------------------------------------------------------- batches

  /** The app a report comes from and the owner its usage is attributed to. */
  datatype Reporter = Reporter(org: int, app: int, appSlug: string, owner: string)

  datatype StoredEvent = StoredEvent(reporter: Reporter, fact: Fact)

  datatype Batch = Accepted(facts: seq<Fact>, skipped: nat) | Rejected(index: nat) | Crashed

  /** Reads a report front to back and stops at the first event that is not acceptable. */
  function ReadBatch(events: seq<Json>, now: int, parseDate: DateParser): Batch {
    if events == [] then Accepted([], 0)
    else
      var last := |events| - 1;
      match ReadBatch(events[..last], now, parseDate)
      case Accepted(facts, skipped) =>
        if !events[last].Object? then Rejected(last)
        else
          (match Parse(events[last].fields, now, parseDate)
           case Valid(fact) => Accepted(facts + [fact], skipped)
           case UnknownSource => Accepted(facts, skipped + 1)
           case Invalid(_) => Rejected(last)
           case Raises => Crashed)
      case Rejected(i) => Rejected(i)
      case Crashed => Crashed
  }

  /** A failure stands, however the report goes on. */
  lemma {:induction false} FailureStands(events: seq<Json>, i: nat, now: int, parseDate: DateParser)
    requires i <= |events| && !ReadBatch(events[..i], now, parseDate).Accepted?
    ensures ReadBatch(events, now, parseDate) == ReadBatch(events[..i], now, parseDate)
    decreases |events| - i
  {
    if i == |events| {
      assert events[..i] == events;
    } else {
      assert events[..i + 1][..i] == events[..i];
      FailureStands(events, i + 1, now, parseDate);
    }
  }

  lemma {:induction false} AcceptedCountsAddUp(events: seq<Json>, now: int, parseDate: DateParser)
    ensures var batch := ReadBatch(events, now, parseDate);
            batch.Accepted? ==> |batch.facts| + batch.skipped == |events|
  {
    if events == [] {
    } else {
      AcceptedCountsAddUp(events[..|events| - 1], now, parseDate);
    }
  }

  /** The loop over a report's events, which leaves at the first one it cannot accept. */
  method ReadEvents(events: seq<Json>, now: int, parseDate: DateParser) returns (batch: Batch)
    ensures batch == ReadBatch(events, now, parseDate)
  {
    var facts: seq<Fact>, skipped := [], 0;
    for i := 0 to |events|
      invariant ReadBatch(events[..i], now, parseDate) == Accepted(facts, skipped)
    {
      assert events[..i + 1][..i] == events[..i];
      if !events[i].Object? {
        FailureStands(events, i + 1, now, parseDate);
        return Rejected(i);
      }
      var parsed := ParseEvent(events[i].fields, now, parseDate);
      match parsed
      case Invalid(_) =>
        FailureStands(events, i + 1, now, parseDate);
        return Rejected(i);
      case Raises =>
        FailureStands(events, i + 1, now, parseDate);
        return Crashed;
      case UnknownSource => skipped := skipped + 1;
      case Valid(fact) => facts := facts + [fact];
    }
    assert events[..|events|] == events;
    return Accepted(facts, skipped);
  }

  /** A batch is accepted exactly when every event is an object that is valid or of an unknown source. */
  lemma {:induction false} AcceptedIff(events: seq<Json>, now: int, parseDate: DateParser)
    ensures ReadBatch(events, now, parseDate).Accepted? <==>
            forall e | e in events :: e.Object? &&
              (Parse(e.fields, now, parseDate).Valid? || Parse(e.fields, now, parseDate).UnknownSource?)
  {
    if events == [] {
    } else {
      var last := |events| - 1;
      AcceptedIff(events[..last], now, parseDate);
      assert events == events[..last] + [events[last]];
    }
  }

  /** The first event that is neither valid nor of an unknown source decides: a malformed one rejects the report, at
      its index, and one that raises fails it. */
  lemma {:induction false} FirstBadEventDecides(events: seq<Json>, i: nat, now: int, parseDate: DateParser)
    requires i < |events| && ReadBatch(events[..i], now, parseDate).Accepted?
    requires var e := events[i];
             e.Object? ==> !Parse(e.fields, now, parseDate).Valid? && Parse(e.fields, now, parseDate) != UnknownSource
    ensures var e := events[i];
            ReadBatch(events, now, parseDate) ==
            if e.Object? && Parse(e.fields, now, parseDate) == Raises then Crashed else Rejected(i)
  {
    assert events[..i + 1][..i] == events[..i];
    FailureStands(events, i + 1, now, parseDate);
  }

  /** Event by event: a valid one adds its fact at the end, one of an unknown source is counted as skipped. */
  lemma NextEvent(events: seq<Json>, i: nat, now: int, parseDate: DateParser)
    requires i < |events| && ReadBatch(events[..i + 1], now, parseDate).Accepted?
    ensures var before, after := ReadBatch(events[..i], now, parseDate), ReadBatch(events[..i + 1], now, parseDate);
            && before.Accepted? && events[i].Object?
            && match Parse(events[i].fields, now, parseDate)
               case Valid(fact) => after == Accepted(before.facts + [fact], before.skipped)
               case UnknownSource => after == Accepted(before.facts, before.skipped + 1)
               case _ => false
  {
    assert events[..i + 1][..i] == events[..i];
  }

  /** The facts of an accepted report start with those of its first events: they stand in the order of the events. */
  lemma {:induction false} FactsKeepOrder(events: seq<Json>, i: nat, now: int, parseDate: DateParser)
    requires i <= |events| && ReadBatch(events, now, parseDate).Accepted?
    ensures ReadBatch(events[..i], now, parseDate).Accepted?
    ensures ReadBatch(events[..i], now, parseDate).facts <= ReadBatch(events, now, parseDate).facts
  {
    if i == |events| {
      assert events[..i] == events;
    } else {
      var last := |events| - 1;
      assert events[..last + 1] == events;
      NextEvent(events, last, now, parseDate);
      FactsKeepOrder(events[..last], i, now, parseDate);
      assert events[..last][..i] == events[..i];
    }
  }

  /** An accepted report reads the same at any later time. */
  lemma {:induction false} AcceptedForGood(events: seq<Json>, now: int, later: int, parseDate: DateParser)
    requires now <= later && ReadBatch(events, now, parseDate).Accepted?
    ensures ReadBatch(events, later, parseDate) == ReadBatch(events, now, parseDate)
  {
    if events == [] {
    } else {
      var last := |events| - 1;
      AcceptedForGood(events[..last], now, later, parseDate);
      LaterParsesTheSame(events[last].fields, now, later, parseDate);
    }
  }

  // ------------------------------------------------------------------------ store

  type Store = map<string, StoredEvent>

  function InsertOne(store: Store, reporter: Reporter, fact: Fact): Store {
    if fact.key in store then store else store[fact.key := StoredEvent(reporter, fact)]
  }

  /** Bulk insert under the unique key, ignoring conflicts with the store and within the batch. */
  function InsertAll(store: Store, reporter: Reporter, facts: seq<Fact>): Store {
    if facts == [] then store
    else InsertOne(InsertAll(store, reporter, facts[..|facts| - 1]), reporter, facts[|facts| - 1])
  }

  datatype Response = Ok(skipped: nat) | BadRequest | ServerError

  datatype Report = Report(reporter: Reporter, events: Json, now: int)

  /** The database refuses a text with a NUL character, and with it the whole insert. */
  predicate Storable(fact: Fact) {
    '\0' !in fact.key && '\0' !in fact.subkey
  }

  predicate AllStorable(facts: seq<Fact>) {
    forall f | f in facts :: Storable(f)
  }

  /** What becomes of a report. */
  function BatchOf(r: Report, parseDate: DateParser): Batch {
    if !r.events.List? || |r.events.items| > MAX_EVENTS_PER_REPORT then Rejected(0)
    else
      var batch := ReadBatch(r.events.items, r.now, parseDate);
      if batch.Accepted? && !AllStorable(batch.facts) then Crashed else batch
  }

  function AfterReport(store: Store, r: Report, parseDate: DateParser): Store {
    match BatchOf(r, parseDate)
    case Accepted(facts, _) => InsertAll(store, r.reporter, facts)
    case _ => store
  }

  class UsageStore {
    var stored: Store

    constructor ()
      ensures stored == map[]
    {
      stored := map[];
    }

    method Receive(r: Report, parseDate: DateParser) returns (response: Response)
      modifies this
      ensures stored == AfterReport(old(stored), r, parseDate)
      ensures response == match BatchOf(r, parseDate)
                          case Accepted(_, skipped) => Ok(skipped)
                          case Rejected(_) => BadRequest
                          case Crashed => ServerError
    {
      if !r.events.List? || |r.events.items| > MAX_EVENTS_PER_REPORT {
        return BadRequest;
      }
      var batch := ReadEvents(r.events.items, r.now, parseDate);
      match batch
      case Rejected(_) => return BadRequest;
      case Crashed => return ServerError;
      case Accepted(facts, skipped) =>
        var done := BulkCreate(r.reporter, facts);
        return if done then Ok(skipped) else ServerError;
    }

    /** One statement: either all rows go in, but for those whose key is taken, or it raises and none does. */
    method BulkCreate(reporter: Reporter, facts: seq<Fact>) returns (done: bool)
      modifies this
      ensures done <==> AllStorable(facts)
      ensures stored == if done then InsertAll(old(stored), reporter, facts) else old(stored)
    {
      if !AllStorable(facts) {
        return false;
      }
      for i := 0 to |facts|
        invariant stored == InsertAll(old(stored), reporter, facts[..i])
      {
        assert facts[..i + 1][..i] == facts[..i];
        if facts[i].key !in stored {
          stored := stored[facts[i].key := StoredEvent(reporter, facts[i])];
        }
      }
      assert facts[..|facts|] == facts;
      return true;
    }
  }

  // ---------------------------------------------------------------------- history

  ghost function AfterReports(reports: seq<Report>, parseDate: DateParser): Store {
    if reports == [] then map[]
    else AfterReport(AfterReports(reports[..|reports| - 1], parseDate), reports[|reports| - 1], parseDate)
  }

  /** The facts of an accepted batch are those of its valid events. */
  lemma {:induction false} FactsOfBatch(events: seq<Json>, now: int, parseDate: DateParser)
    requires ReadBatch(events, now, parseDate).Accepted?
    ensures forall f :: f in ReadBatch(events, now, parseDate).facts <==>
              exists e | e in events :: e.Object? && Parse(e.fields, now, parseDate) == Valid(f)
  {
    if events == [] {
    } else {
      var front, last := events[..|events| - 1], events[|events| - 1];
      FactsOfBatch(front, now, parseDate);
      assert events == front + [last];
    }
  }

  /** A report is accepted exactly when it is a list of at most 500 objects, each of an unknown source or valid with
      texts that the database takes. */
  lemma ReportAcceptedIff(r: Report, parseDate: DateParser)
    ensures BatchOf(r, parseDate).Accepted? <==>
            && r.events.List? && |r.events.items| <= 500
            && forall e | e in r.events.items ::
                 e.Object? &&
                 var parsed := Parse(e.fields, r.now, parseDate);
                 parsed.UnknownSource? ||
                 (parsed.Valid? && '\0' !in parsed.fact.key && '\0' !in parsed.fact.subkey)
  {
    if r.events.List? {
      AcceptedIff(r.events.items, r.now, parseDate);
      if ReadBatch(r.events.items, r.now, parseDate).Accepted? {
        FactsOfBatch(r.events.items, r.now, parseDate);
      }
    }
  }

  /** A report is answered 400 exactly when its events are no list, more than 500, or the first that is neither valid
      nor of an unknown source is no object or malformed. */
  lemma BadRequestIff(r: Report, parseDate: DateParser)
    ensures BatchOf(r, parseDate).Rejected? <==>
            || !r.events.List? || |r.events.items| > 500
            || exists i :: 0 <= i < |r.events.items| &&
                 ReadBatch(r.events.items[..i], r.now, parseDate).Accepted? &&
                 IsMalformed(r.events.items[i], r, parseDate)
  {
    if r.events.List? && |r.events.items| <= 500 {
      var events := r.events.items;
      if ReadBatch(events, r.now, parseDate).Accepted? {
        AcceptedIff(events, r.now, parseDate);
      } else {
        var i := FirstBad(events, r.now, parseDate);
        FirstBadEventDecides(events, i, r.now, parseDate);
      }
      forall i | 0 <= i < |events| && ReadBatch(events[..i], r.now, parseDate).Accepted? &&
                 IsMalformed(events[i], r, parseDate)
        ensures ReadBatch(events, r.now, parseDate) == Rejected(i)
      {
        FirstBadEventDecides(events, i, r.now, parseDate);
      }
    }
  }

  predicate IsMalformed(e: Json, r: Report, parseDate: DateParser) {
    !e.Object? || Parse(e.fields, r.now, parseDate).Invalid?
  }

  /** A report that is not accepted has a first event that is not acceptable. */
  lemma {:induction false} FirstBad(events: seq<Json>, now: int, parseDate: DateParser) returns (i: nat)
    requires !ReadBatch(events, now, parseDate).Accepted?
    ensures i < |events| && ReadBatch(events[..i], now, parseDate).Accepted?
    ensures var e := events[i];
            e.Object? ==> !Parse(e.fields, now, parseDate).Valid? && Parse(e.fields, now, parseDate) != UnknownSource
  {
    var last := |events| - 1;
    if ReadBatch(events[..last], now, parseDate).Accepted? {
      i := last;
    } else {
      i := FirstBad(events[..last], now, parseDate);
      assert events[..last][..i] == events[..i];
    }
  }

  /** One event that is neither valid nor of an unknown source keeps the whole report out of the store. */
  lemma OneBadEventStoresNothing(store: Store, r: Report, parseDate: DateParser, i: nat)
    requires r.events.List? && i < |r.events.items|
    requires var e := r.events.items[i];
             e.Object? ==>
               !Parse(e.fields, r.now, parseDate).Valid? && !Parse(e.fields, r.now, parseDate).UnknownSource?
    ensures AfterReport(store, r, parseDate) == store && !BatchOf(r, parseDate).Accepted?
  {
    AcceptedIff(r.events.items, r.now, parseDate);
    assert r.events.items[i] in r.events.items;
  }

  /** Every event the reports got accepted, in order of arrival. */
  ghost function AcceptedEvents(reports: seq<Report>, parseDate: DateParser): seq<StoredEvent> {
    if reports == [] then []
    else
      var last := reports[|reports| - 1];
      AcceptedEvents(reports[..|reports| - 1], parseDate) +
      match BatchOf(last, parseDate)
      case Accepted(facts, _) => seq(|facts|, i requires 0 <= i < |facts| => StoredEvent(last.reporter, facts[i]))
      case _ => []
  }

  /** The first of `events` with the given key. */
  ghost function FirstWith(events: seq<StoredEvent>, key: string): Option<StoredEvent> {
    if events == [] then None
    else if events[0].fact.key == key then Some(events[0])
    else FirstWith(events[1..], key)
  }

  lemma {:induction false} FirstWithSnoc(events: seq<StoredEvent>, e: StoredEvent, key: string)
    ensures FirstWith(events + [e], key) ==
            if FirstWith(events, key).Some? then FirstWith(events, key)
            else if e.fact.key == key then Some(e) else None
  {
    if events == [] {
    } else {
      FirstWithSnoc(events[1..], e, key);
      assert (events + [e])[1..] == events[1..] + [e];
    }
  }

  function Lookup(store: Store, key: string): Option<StoredEvent> {
    if key in store then Some(store[key]) else None
  }

  ghost predicate HoldsFirsts(store: Store, events: seq<StoredEvent>) {
    forall key :: Lookup(store, key) == FirstWith(events, key)
  }

  lemma {:induction false} InsertAllKeepsFirsts(store: Store, events: seq<StoredEvent>, reporter: Reporter,
                                                facts: seq<Fact>)
    requires HoldsFirsts(store, events)
    ensures HoldsFirsts(InsertAll(store, reporter, facts),
                        events + seq(|facts|, i requires 0 <= i < |facts| => StoredEvent(reporter, facts[i])))
  {
    var added := seq(|facts|, i requires 0 <= i < |facts| => StoredEvent(reporter, facts[i]));
    if facts == [] {
      assert events + added == events;
    } else {
      var last := |facts| - 1;
      var front := seq(last, i requires 0 <= i < last => StoredEvent(reporter, facts[..last][i]));
      InsertAllKeepsFirsts(store, events, reporter, facts[..last]);
      assert events + added == (events + front) + [StoredEvent(reporter, facts[last])];
      forall key ensures Lookup(InsertAll(store, reporter, facts), key) == FirstWith(events + added, key) {
        FirstWithSnoc(events + front, StoredEvent(reporter, facts[last]), key);
        assert Lookup(InsertAll(store, reporter, facts[..last]), key) == FirstWith(events + front, key);
      }
    }
  }

  /** Whatever reports arrive, repeat or overlap, the store maps each key to its first accepted event. */
  lemma {:induction false} FirstAcceptedWins(reports: seq<Report>, parseDate: DateParser)
    ensures HoldsFirsts(AfterReports(reports, parseDate), AcceptedEvents(reports, parseDate))
  {
    if reports == [] {
    } else {
      var front, last := reports[..|reports| - 1], reports[|reports| - 1];
      FirstAcceptedWins(front, parseDate);
      match BatchOf(last, parseDate)
      case Accepted(facts, _) =>
        InsertAllKeepsFirsts(AfterReports(front, parseDate), AcceptedEvents(front, parseDate), last.reporter, facts);
      case _ =>
        assert AcceptedEvents(front, parseDate) + [] == AcceptedEvents(front, parseDate);
    }
  }

  lemma {:induction false} InsertAllGrows(store: Store, reporter: Reporter, facts: seq<Fact>)
    ensures forall key | key in store ::
              key in InsertAll(store, reporter, facts) && InsertAll(store, reporter, facts)[key] == store[key]
    ensures forall f | f in facts :: f.key in InsertAll(store, reporter, facts)
  {
    if facts == [] {
    } else {
      var last := |facts| - 1;
      InsertAllGrows(store, reporter, facts[..last]);
      assert facts == facts[..last] + [facts[last]];
    }
  }

  lemma {:induction false} KnownFactsAddNothing(store: Store, reporter: Reporter, facts: seq<Fact>)
    requires forall f | f in facts :: f.key in store
    ensures InsertAll(store, reporter, facts) == store
  {
    if facts == [] {
    } else {
      KnownFactsAddNothing(store, reporter, facts[..|facts| - 1]);
    }
  }

  lemma {:induction false} AcceptedKeysStay(reports: seq<Report>, parseDate: DateParser, n: nat, key: string)
    requires n < |reports| && BatchOf(reports[n], parseDate).Accepted?
    requires exists f | f in BatchOf(reports[n], parseDate).facts :: f.key == key
    ensures key in AfterReports(reports, parseDate)
  {
    var last := |reports| - 1;
    var before := AfterReports(reports[..last], parseDate);
    if n < last {
      AcceptedKeysStay(reports[..last], parseDate, n, key);
    }
    if BatchOf(reports[last], parseDate).Accepted? {
      InsertAllGrows(before, reports[last].reporter, BatchOf(reports[last], parseDate).facts);
    }
  }

  /** Replaying an accepted report at any later point, even from another app, is accepted again and changes nothing. */
  lemma ReplayChangesNothing(reports: seq<Report>, parseDate: DateParser, n: nat, replay: Report)
    requires n < |reports| && BatchOf(reports[n], parseDate).Accepted?
    requires replay.events == reports[n].events && replay.now >= reports[n].now
    ensures BatchOf(replay, parseDate) == BatchOf(reports[n], parseDate)
    ensures AfterReport(AfterReports(reports, parseDate), replay, parseDate) == AfterReports(reports, parseDate)
  {
    AcceptedForGood(reports[n].events.items, reports[n].now, replay.now, parseDate);
    var facts := BatchOf(reports[n], parseDate).facts;
    forall f | f in facts ensures f.key in AfterReports(reports, parseDate) {
      AcceptedKeysStay(reports, parseDate, n, f.key);
    }
    KnownFactsAddNothing(AfterReports(reports, parseDate), replay.reporter, facts);
  }
}
