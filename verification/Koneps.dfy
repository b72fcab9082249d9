/** The window and page cursor of KONEPS discovery.  Instants are minutes on one monotone clock. */
module Koneps {
  import opened Wrappers

  const HOUR := 60
  const DAY := 1440
  const MAX_WINDOW := 30 * DAY
  const STRIDE := DAY - HOUR             // how far one full window moves the end

  /** inqryDiv 1 lists registrations, 3 lists changes. */
  datatype Mode = Registered | Changed | Done

  datatype Cursor = Cursor(start: int, end: int, mode: Mode, page: int)

  /** A parsed JSON answer; Number stands for numbers that are not integers. */
  datatype Json =
    | Null | Bool(b: bool) | Int(n: int) | Number | Text(s: string)
    | List(xs: seq<Json>) | Object(fields: map<string, Json>)

  /** `identified` tells whether an item carries an official notice identity. */
  datatype Config = Config(pageSize: nat, lookbackDays: nat, identified: map<string, Json> -> bool)

  datatype Error =
    | InvalidCursor | InvalidJson | InvalidEnvelope | InvalidHeader | Transient | Application | InvalidBody
    | InvalidItems | InvalidCount | WrongPage | WrongPageSize | WrongItemCount | NoProgress

  datatype Discovery = Discovery(records: seq<Json>, next: Cursor)

  /** The answer to the request for a window and page; None when it is not JSON. */
  type Server = Cursor -> Option<Json>

  predicate ValidConfig(c: Config) {
    1 <= c.pageSize <= 100 && 1 <= c.lookbackDays <= 30
  }

  /** What the stored cursor must satisfy to be read back. */
  predicate Accepted(c: Cursor) {
    c.page >= 1 && c.start <= c.end && c.end - c.start <= MAX_WINDOW
  }

  function Min(a: int, b: int): int {
    if a < b then a else b
  }

  /** The window and page the next request asks for. */
  function Begin(config: Config, cursor: Option<Cursor>, now: int): Result<Cursor, Error> {
    match cursor
    case None => Success(Cursor(now - config.lookbackDays * DAY, now, Registered, 1))
    case Some(c) =>
      if !Accepted(c) then Failure(InvalidCursor)
      else if c.mode == Done then Success(NextWindow(c, now))
      else Success(c)
  }

  function NextWindow(c: Cursor, now: int): Cursor {
    var start := c.end - HOUR;
    Cursor(start, Min(now, start + DAY), Registered, 1)
  }

  /** Items the page of a list of `total` items must hold. */
  function Expected(pageSize: nat, total: nat, page: nat): nat
    requires page >= 1
  {
    var before := (page - 1) * pageSize;
    if total <= before then 0 else if total - before < pageSize then total - before else pageSize
  }

  // ----- reading an answer

  function Get(fields: map<string, Json>, key: string): Json {
    if key in fields then fields[key] else Null
  }

  predicate IsDigits(s: string) {
    s != "" && forall i :: 0 <= i < |s| ==> '0' <= s[i] <= '9'
  }

  function DigitsValue(s: string): nat
    requires forall i :: 0 <= i < |s| ==> '0' <= s[i] <= '9'
  {
    if s == "" then 0 else 10 * DigitsValue(s[..|s| - 1]) + (s[|s| - 1] - '0') as nat
  }

  /** A pagination count: a non-negative integer, or decimal digits. */
  function Count(v: Json): Option<nat> {
    match v
    case Int(n) => if n >= 0 then Some(n) else None
    case Text(s) => if IsDigits(s) then Some(DigitsValue(s)) else None
    case _ => None
  }

  function BodyOf(answer: Option<Json>): Result<map<string, Json>, Error> {
    if answer == None then Failure(InvalidJson)
    else if !answer.value.Object? || !Get(answer.value.fields, "response").Object? then Failure(InvalidEnvelope)
    else
      var data := Get(answer.value.fields, "response").fields;
      var header := Get(data, "header");
      if !header.Object? || "resultCode" !in header.fields then Failure(InvalidHeader)
      else if header.fields["resultCode"] != Text("00") then
        Failure(if header.fields["resultCode"] in [Text("01"), Text("05"), Text("23")] then Transient else Application)
      else if !Get(data, "body").Object? then Failure(InvalidBody)
      else Success(Get(data, "body").fields)
  }

  /** The items of a page: absent or blank is none, and one item may stand without its list. */
  function ItemsOf(config: Config, body: map<string, Json>): Result<seq<Json>, Error> {
    var given := Get(body, "items");
    var listed := if given == Null || given == Text("") then List([]) else given;
    var inner := if !listed.Object? then listed else if "item" in listed.fields then listed.fields["item"] else List([]);
    var items := if listed.Object? && inner.Object? then List([inner]) else inner;
    if !items.List? || (exists x :: x in items.xs && !x.Object?) then Failure(InvalidItems)
    else if exists x :: x in items.xs && x.Object? && !config.identified(x.fields) then Failure(InvalidItems)
    else Success(items.xs)
  }

  /** The total of a page that is consistent with the request and the items received. */
  function ValidatePage(config: Config, body: map<string, Json>, page: nat, received: nat): Result<nat, Error>
    requires page >= 1
  {
    var total, number, rows := Count(Get(body, "totalCount")), Count(Get(body, "pageNo")), Count(Get(body, "numOfRows"));
    if total == None || number == None then Failure(InvalidCount)
    else if number.value != page then Failure(WrongPage)
    else if rows == None then Failure(InvalidCount)
    else if rows.value != config.pageSize then Failure(WrongPageSize)
    else if received != Expected(config.pageSize, total.value, page) then Failure(WrongItemCount)
    else Success(total.value)
  }

  function Advance(config: Config, state: Cursor, total: nat, received: nat): Result<Cursor, Error> {
    if state.page * config.pageSize < total then
      if received == 0 then Failure(NoProgress) else Success(state.(page := state.page + 1))
    else if state.mode == Registered then Success(state.(mode := Changed, page := 1))
    else Success(state.(mode := Done, page := 1))
  }

  /** What one answer to the request of `state` leads to. */
  function Receive(config: Config, state: Cursor, answer: Option<Json>): Result<Discovery, Error>
    requires state.page >= 1
  {
    match BodyOf(answer)
    case Failure(e) => Failure(e)
    case Success(body) =>
      match ItemsOf(config, body)
      case Failure(e) => Failure(e)
      case Success(items) =>
        match ValidatePage(config, body, state.page, |items|)
        case Failure(e) => Failure(e)
        case Success(total) =>
          match Advance(config, state, total, |items|)
          case Failure(e) => Failure(e)
          case Success(next) => Success(Discovery(items, next))
  }

  lemma BeginsOnAPage(config: Config, cursor: Option<Cursor>, now: int)
    ensures Begin(config, cursor, now).Success? ==> Begin(config, cursor, now).value.page >= 1
  {
  }

  function Discover(config: Config, cursor: Option<Cursor>, now: int, reply: Server): Result<Discovery, Error> {
    BeginsOnAPage(config, cursor, now);
    match Begin(config, cursor, now)
    case Failure(e) => Failure(e)
    case Success(state) => Receive(config, state, reply(state))
  }

  method RunDiscover(config: Config, cursor: Option<Cursor>, now: int, reply: Server)
    returns (result: Result<Discovery, Error>)
    ensures result == Discover(config, cursor, now, reply)
  {
    var state: Cursor;
    if cursor.Some? {
      if !Accepted(cursor.value) {
        return Failure(InvalidCursor);
      }
      state := cursor.value;
      if state.mode == Done {
        var start := state.end - HOUR;
        state := Cursor(start, Min(now, start + DAY), Registered, 1);
      }
    } else {
      state := Cursor(now - config.lookbackDays * DAY, now, Registered, 1);
    }
    result := ReceiveAnswer(config, state, reply(state));
  }

  method ReceiveAnswer(config: Config, before: Cursor, answer: Option<Json>) returns (result: Result<Discovery, Error>)
    requires before.page >= 1
    ensures result == Receive(config, before, answer)
  {
    var state := before;
    var body := BodyOf(answer);
    if body.Failure? {
      return Failure(body.error);
    }
    var records := ItemsOf(config, body.value);
    if records.Failure? {
      return Failure(records.error);
    }
    var total := ValidatePage(config, body.value, state.page, |records.value|);
    if total.Failure? {
      return Failure(total.error);
    }
    if state.page * config.pageSize < total.value {
      if |records.value| == 0 {
        return Failure(NoProgress);
      }
      state := state.(page := state.page + 1);
    } else if state.mode == Registered {
      state := state.(mode := Changed, page := 1);
    } else {
      state := state.(mode := Done, page := 1);
    }
    return Success(Discovery(records.value, state));
  }

  // ----- what an answer is read as

  /** The decimal digits of a number. */
  function Decimal(n: nat): (s: string)
    ensures IsDigits(s)
  {
    if n < 10 then ["0123456789"[n]] else Decimal(n / 10) + ["0123456789"[n % 10]]
  }

  /** A count may be a number or its digits, and nothing that is negative or not made of digits is one. */
  lemma {:induction false} CountReadsDecimal(n: nat)
    ensures Count(Text(Decimal(n))) == Some(n) && Count(Int(n)) == Some(n)
  {
    var digits := Decimal(n);
    assert (("0123456789"[n % 10]) - '0') as nat == n % 10;
    if n >= 10 {
      CountReadsDecimal(n / 10);
      assert digits[..|digits| - 1] == Decimal(n / 10);
    } else {
      assert digits == ["0123456789"[n]] && digits[..0] == "" && DigitsValue("") == 0;
      assert DigitsValue(digits) == 10 * DigitsValue(digits[..0]) + (digits[0] - '0') as nat;
    }
  }

  lemma NothingElseCounts(v: Json)
    requires !(v.Int? && v.n >= 0)
    requires !(v.Text? && v.s != "" && forall c :: c in v.s ==> c in "0123456789")
    ensures Count(v) == None
  {
    if v.Text? && IsDigits(v.s) {
      forall c | c in v.s ensures c in "0123456789" {
        var i :| 0 <= i < |v.s| && v.s[i] == c;
        assert "0123456789"[(c - '0') as nat] == c;
      }
    }
  }

  /** The answer has the shape of a result with this code and body. */
  predicate Says(answer: Option<Json>, code: Json, body: Json) {
    && answer.Some? && answer.value.Object?
    && "response" in answer.value.fields && answer.value.fields["response"].Object?
    && var data := answer.value.fields["response"].fields;
    && "header" in data && data["header"].Object?
    && "resultCode" in data["header"].fields && data["header"].fields["resultCode"] == code
    && "body" in data && data["body"] == body
  }

  /** Only the code of success gives a body, three other codes may pass when tried again, and all others are
      errors of the application. */
  lemma CodesDecide(answer: Option<Json>, code: Json, body: Json)
    requires Says(answer, code, body)
    ensures code == Text("00") ==> BodyOf(answer) == if body.Object? then Success(body.fields) else Failure(InvalidBody)
    ensures code == Text("01") || code == Text("05") || code == Text("23") ==> BodyOf(answer) == Failure(Transient)
    ensures code != Text("00") && code != Text("01") && code != Text("05") && code != Text("23") ==> BodyOf(answer) == Failure(Application)
  {
  }

  lemma OnlySuccessHasABody(answer: Option<Json>)
    requires BodyOf(answer).Success?
    ensures Says(answer, Text("00"), Object(BodyOf(answer).value))
  {
  }

  /** An item is an object with an official identity. */
  predicate IsItem(config: Config, x: Json) {
    x.Object? && config.identified(x.fields)
  }

  /** Items are listed under the body, or under one more object, where a single one may stand by itself; absent
      or blank means none; anything else, or anything listed that is not an item, is refused. */
  lemma ItemsAreListed(config: Config, body: map<string, Json>, xs: seq<Json>)
    ensures "items" !in body || body["items"] == Null || body["items"] == Text("") ==> ItemsOf(config, body) == Success([])
    ensures "items" in body && body["items"] == List(xs) ==>
              ItemsOf(config, body) == if forall x :: x in xs ==> IsItem(config, x) then Success(xs) else Failure(InvalidItems)
    ensures "items" in body && body["items"].Object? && "item" !in body["items"].fields ==> ItemsOf(config, body) == Success([])
    ensures "items" in body && body["items"].Object? && "item" in body["items"].fields && body["items"].fields["item"] == List(xs) ==>
              ItemsOf(config, body) == if forall x :: x in xs ==> IsItem(config, x) then Success(xs) else Failure(InvalidItems)
    ensures "items" in body && body["items"].Object? && "item" in body["items"].fields && body["items"].fields["item"].Object? ==>
              var x := body["items"].fields["item"];
              ItemsOf(config, body) == if IsItem(config, x) then Success([x]) else Failure(InvalidItems)
    ensures "items" in body && (body["items"].Bool? || body["items"].Int? || body["items"].Number? || (body["items"].Text? && body["items"].s != "")) ==>
              ItemsOf(config, body) == Failure(InvalidItems)
  {
  }

  /** A page is consistent exactly when its three counts are, and then its total is the count it gives. */
  lemma ConsistentPageIff(config: Config, body: map<string, Json>, page: nat, received: nat)
    requires page >= 1
    ensures ValidatePage(config, body, page, received).Success?
            <==> && "pageNo" in body && Count(body["pageNo"]) == Some(page)
                 && "numOfRows" in body && Count(body["numOfRows"]) == Some(config.pageSize)
                 && "totalCount" in body && Count(body["totalCount"]).Some?
                 && var total := Count(body["totalCount"]).value;
                 received == if total <= (page - 1) * config.pageSize then 0
                             else if total >= page * config.pageSize then config.pageSize else total - (page - 1) * config.pageSize
    ensures ValidatePage(config, body, page, received).Success? ==>
              "totalCount" in body && Count(body["totalCount"]) == Some(ValidatePage(config, body, page, received).value)
  {
    assert page * config.pageSize == (page - 1) * config.pageSize + config.pageSize;
  }

  // ----- the first request

  /** Without a cursor, discovery reads the registrations of the last days, up to now, from the first page. */
  lemma FirstWindow(config: Config, now: int, reply: Server)
    requires ValidConfig(config)
    ensures var first := Cursor(now - config.lookbackDays * 1440, now, Registered, 1);
            && Stored(first, now)
            && Discover(config, None, now, reply) == Receive(config, first, reply(first))
            && Discover(config, None, now, reply) == Discover(config, Some(first), now, reply)
  {
    assert config.lookbackDays * 1440 <= MAX_WINDOW;
  }

  /** A stored cursor that is not done is read on as it is; a done one opens the next window, from an hour
      before its end to a day later or now, whichever is earlier. */
  lemma WindowGoesOn(config: Config, c: Cursor, now: int, reply: Server)
    requires Stored(c, now)
    ensures var state := if c.mode == Done
                         then Cursor(c.end - 60, if c.end - 60 + 1440 <= now then c.end - 60 + 1440 else now, Registered, 1)
                         else c;
            Discover(config, Some(c), now, reply) == Receive(config, state, reply(state))
  {
    NextWindowIs(c, now);
    BeginsAt(config, c, now);
  }

  lemma NextWindowIs(c: Cursor, now: int)
    ensures NextWindow(c, now) == Cursor(c.end - 60, if c.end - 60 + 1440 <= now then c.end - 60 + 1440 else now, Registered, 1)
  {
  }

  lemma BeginsAt(config: Config, c: Cursor, now: int)
    requires Accepted(c)
    ensures Begin(config, Some(c), now) == Success(if c.mode == Done then NextWindow(c, now) else c)
  {
  }

  /** What a cursor must satisfy: a page from one and a window of at most thirty days that does not run
      backwards. */
  lemma AcceptedIff(config: Config, c: Cursor, now: int, reply: Server)
    requires c.mode != Done
    ensures Discover(config, Some(c), now, reply) == Failure(InvalidCursor)
            <==> c.page < 1 || c.start > c.end || c.end - c.start > 43200
  {
    if c.page >= 1 && c.start <= c.end && c.end - c.start <= 43200 {
      AnswersAreNotCursors(config, c, reply(c));
    }
  }

  lemma AnswersAreNotCursors(config: Config, c: Cursor, answer: Option<Json>)
    requires c.page >= 1
    ensures Receive(config, c, answer) != Failure(InvalidCursor)
  {
  }

  // ----- cursors

  /** Cursors that discovery itself has stored by the time `now`. */
  predicate Stored(c: Cursor, now: int) {
    Accepted(c) && c.end <= now
  }

  /** Every stored cursor is accepted by the next call, however late it comes, and only the answer can make
      that call fail: a page that validates always makes progress. */
  lemma StoredCursorsAreAccepted(config: Config, cursor: Option<Cursor>, before: int, now: int, reply: Server)
    requires ValidConfig(config) && before <= now
    requires cursor.Some? ==> Stored(cursor.value, before)
    ensures var result := Discover(config, cursor, now, reply);
            && (result.Success? ==> Stored(result.value.next, now))
            && (result.Failure? ==> result.error != InvalidCursor && result.error != NoProgress)
  {
    assert config.lookbackDays * DAY <= MAX_WINDOW;
    var state := Begin(config, cursor, now).value;
    assert Stored(state, now);
    ReceivedIsStored(config, state, now, reply(state));
  }

  lemma ReceivedIsStored(config: Config, state: Cursor, now: int, answer: Option<Json>)
    requires ValidConfig(config) && Stored(state, now)
    ensures var result := Receive(config, state, answer);
            && (result.Success? ==> Stored(result.value.next, now))
            && (result.Failure? ==> result.error != InvalidCursor && result.error != NoProgress)
  {
    var body := BodyOf(answer);
    if body.Success? {
      var total := Count(Get(body.value, "totalCount"));
      if total.Some? {
        PageArithmetic(config.pageSize, total.value, state.page);
      }
    }
  }

  /** A validated page with more to come is never empty. */
  lemma PageArithmetic(pageSize: nat, total: nat, page: nat)
    requires pageSize >= 1 && page >= 1
    ensures page * pageSize == (page - 1) * pageSize + pageSize
    ensures page * pageSize < total ==> Expected(pageSize, total, page) == pageSize
    ensures page * pageSize >= total ==> Expected(pageSize, total, page) == if total <= (page - 1) * pageSize then 0 else total - (page - 1) * pageSize
  {
    assert page * pageSize == (page - 1) * pageSize + pageSize;
  }

  /** An accepted cursor that discovery did not store can break the chain: the window that follows a done
      cursor is accepted later exactly when the clock has reached the window's start. */
  lemma NextWindowAcceptedIff(c: Cursor, now: int)
    requires Accepted(c) && c.mode == Done
    ensures Accepted(NextWindow(c, now)) <==> now >= c.end - HOUR
  {
  }

  /** Such a cursor exists at every instant; and of the cursors discovery stored itself, only one is refused
      for which the clock has since gone back by more than an hour. */
  lemma RefusedWindows(now: int)
    ensures var foreign := Cursor(now, now + HOUR + 1, Done, 1);
            && Accepted(foreign)
            && forall config, reply :: Discover(config, Some(NextWindow(foreign, now)), now, reply) == Failure(InvalidCursor)
    ensures forall c: Cursor, before: int :: Stored(c, before) && c.mode == Done && !Accepted(NextWindow(c, now)) ==> now < before - HOUR
  {
  }

  // ----- windows

  /** Consecutive windows overlap, ends never move back, and each new window ends at the present or
      23 hours later than the one before. */
  lemma WindowsAdvance(c: Cursor, now: int)
    requires Stored(c, now)
    ensures var w := NextWindow(c, now);
            && w.start < c.end <= w.end
            && (w.end == now || w.end == c.end + DAY - HOUR)
  {
  }

  /** The windows opened at the successive instants `nows`, starting after window `c`. */
  function Windows(c: Cursor, nows: seq<int>): seq<Cursor>
    decreases |nows|
  {
    if nows == [] then [c] else [c] + Windows(NextWindow(c, nows[0]), nows[1..])
  }

  ghost predicate Monotone(nows: seq<int>, from: int) {
    (forall i :: 0 <= i < |nows| ==> from <= nows[i]) && forall i, j :: 0 <= i < j < |nows| ==> nows[i] <= nows[j]
  }

  /** No instant between the first start and the last end is left out by any chain of windows. */
  lemma {:induction false} WindowsCover(c: Cursor, nows: seq<int>, t: int) returns (i: nat)
    requires Accepted(c) && Monotone(nows, c.end)
    requires var ws := Windows(c, nows); c.start <= t <= ws[|ws| - 1].end
    ensures var ws := Windows(c, nows); i < |ws| && ws[i].start <= t <= ws[i].end
    decreases |nows|
  {
    if t <= c.end || nows == [] {
      i := 0;
    } else {
      var w := NextWindow(c, nows[0]);
      assert Monotone(nows[1..], w.end);
      var ws := Windows(w, nows[1..]);
      assert Windows(c, nows) == [c] + ws;
      var j := WindowsCover(w, nows[1..], t);
      i := j + 1;
    }
  }

  function LastEnd(c: Cursor, nows: seq<int>): int {
    var ws := Windows(c, nows);
    ws[|ws| - 1].end
  }

  lemma LastEndUnfolds(c: Cursor, nows: seq<int>)
    requires nows != []
    ensures LastEnd(c, nows) == LastEnd(NextWindow(c, nows[0]), nows[1..])
  {
    assert Windows(c, nows) == [c] + Windows(NextWindow(c, nows[0]), nows[1..]);
  }

  /** No step between two calls is longer than the 23 hours by which each remaining call can catch up. */
  ghost predicate Keeps(nows: seq<int>) {
    forall i :: 0 <= i < |nows| ==> nows[|nows| - 1] - nows[i] <= (|nows| - 1 - i) * STRIDE
  }

  /** The last window ends at the present exactly when neither the backlog at the start nor any gap between
      the calls was longer than the calls after it can catch up with, 23 hours each. */
  lemma {:induction false} WindowsReachPresentIff(c: Cursor, nows: seq<int>)
    requires Accepted(c) && nows != [] && Monotone(nows, c.end)
    ensures LastEnd(c, nows) == nows[|nows| - 1]
            <==> nows[|nows| - 1] <= c.end + |nows| * STRIDE && Keeps(nows)
    ensures LastEnd(c, nows) <= nows[|nows| - 1]
    decreases |nows|
  {
    var w, rest := NextWindow(c, nows[0]), nows[1..];
    LastEndUnfolds(c, nows);
    if rest != [] {
      assert Monotone(rest, w.end);
      WindowsReachPresentIff(w, rest);
      KeepsUnfolds(nows);
    }
  }

  lemma KeepsUnfolds(nows: seq<int>)
    requires |nows| >= 2
    ensures Keeps(nows) <==> Keeps(nows[1..]) && nows[|nows| - 1] - nows[0] <= (|nows| - 1) * STRIDE
  {
    var rest := nows[1..];
    forall i | 0 <= i < |rest|
      ensures rest[|rest| - 1] - rest[i] <= (|rest| - 1 - i) * STRIDE
              <==> nows[|nows| - 1] - nows[i + 1] <= (|nows| - 1 - (i + 1)) * STRIDE
    {
    }
    if Keeps(rest) && nows[|nows| - 1] - nows[0] <= (|nows| - 1) * STRIDE {
      forall i | 0 <= i < |nows| ensures nows[|nows| - 1] - nows[i] <= (|nows| - 1 - i) * STRIDE {
        if i > 0 { assert rest[i - 1] == nows[i]; }
      }
    }
    if Keeps(nows) {
      forall i | 0 <= i < |rest| ensures rest[|rest| - 1] - rest[i] <= (|rest| - 1 - i) * STRIDE {
        assert rest[i] == nows[i + 1];
      }
    }
  }

  /** However the clock moves, the calls catch up 23 hours each until they reach the present of the first. */
  lemma {:induction false} BacklogShrinks(c: Cursor, nows: seq<int>)
    requires Accepted(c) && nows != [] && Monotone(nows, c.end)
    ensures LastEnd(c, nows) >= Min(nows[0], c.end + |nows| * STRIDE)
    decreases |nows|
  {
    var w, rest := NextWindow(c, nows[0]), nows[1..];
    LastEndUnfolds(c, nows);
    if rest != [] {
      assert Monotone(rest, w.end);
      BacklogShrinks(w, rest);
    }
  }

  // ----- pages

  /** The items on one page of a list. */
  function Slice(pageSize: nat, items: seq<Json>, page: nat): seq<Json>
    requires page >= 1
  {
    var from := Before(pageSize, |items|, page);
    items[from..from + Expected(pageSize, |items|, page)]
  }

  /** A well-formed answer for one page of a list. */
  function Render(config: Config, items: seq<Json>, page: nat): Json
    requires page >= 1
  {
    Object(map["response" := Object(map[
      "header" := Object(map["resultCode" := Text("00")]),
      "body" := Object(map["totalCount" := Int(|items|), "pageNo" := Int(page), "numOfRows" := Int(config.pageSize),
                           "items" := List(Slice(config.pageSize, items, page))])])])
  }

  /** A server whose two lists do not change while a window is read. */
  function StableServer(config: Config, registered: seq<Json>, changed: seq<Json>): Server {
    (state: Cursor) =>
      if state.page < 1 then None
      else Some(Render(config, if state.mode == Registered then registered else changed, state.page))
  }

  predicate AllIdentified(config: Config, items: seq<Json>) {
    forall i :: 0 <= i < |items| ==> items[i].Object? && config.identified(items[i].fields)
  }

  lemma RenderedIsReceived(config: Config, state: Cursor, items: seq<Json>)
    requires ValidConfig(config) && state.page >= 1 && AllIdentified(config, items)
    ensures var found := Slice(config.pageSize, items, state.page);
            Receive(config, state, Some(Render(config, items, state.page)))
            == match Advance(config, state, |items|, |found|)
               case Failure(e) => Failure(e)
               case Success(next) => Success(Discovery(found, next))
  {
    var found := Slice(config.pageSize, items, state.page);
    var body := BodyOf(Some(Render(config, items, state.page)));
    assert body.Success? && Get(body.value, "items") == List(found);
    assert forall x :: x in found ==> x in items;
    assert ItemsOf(config, body.value) == Success(found);
  }

  /** Items delivered before a given page. */
  function Before(pageSize: nat, total: nat, page: nat): (n: nat)
    requires page >= 1
    ensures n + Expected(pageSize, total, page) <= total
  {
    if total <= (page - 1) * pageSize then total else (page - 1) * pageSize
  }

  lemma DeliveredGrows(pageSize: nat, total: nat, page: nat)
    requires pageSize >= 1 && page >= 1
    ensures Before(pageSize, total, page) + Expected(pageSize, total, page) == Before(pageSize, total, page + 1)
    ensures page * pageSize >= total ==> Before(pageSize, total, page + 1) == total
  {
    assert page * pageSize == (page - 1) * pageSize + pageSize;
  }

  /** The number of pages it takes to read a list: at least one, and no more than needed. */
  predicate IsPageCount(pageSize: nat, total: nat, pages: nat) {
    pages >= 1 && total <= pages * pageSize && (pages > 1 ==> (pages - 1) * pageSize < total)
  }

  /** The items of the list a cursor is reading that come before its page. */
  predicate HasRead(config: Config, c: Cursor, items: seq<Json>, read: seq<Json>, calls: nat)
    requires c.page >= 1
  {
    && read == items[..Before(config.pageSize, |items|, c.page)]
    && calls == c.page - 1
    && (c.page > 1 ==> (c.page - 1) * config.pageSize < |items|)
  }

  /** One call on a list reads its next page, and moves on when that was the last. */
  lemma OneCall(config: Config, c: Cursor, now: int, items: seq<Json>, read: seq<Json>, calls: nat, reply: Server)
    requires ValidConfig(config) && Stored(c, now) && c.mode != Done && AllIdentified(config, items)
    requires reply(c) == Some(Render(config, items, c.page)) && HasRead(config, c, items, read, calls)
    ensures var result := Discover(config, Some(c), now, reply);
            && result.Success?
            && var next, more := result.value.next, read + result.value.records;
            if c.page * config.pageSize < |items|
            then next == c.(page := c.page + 1) && HasRead(config, next, items, more, calls + 1) && c.page < |items|
            else
              && next == c.(mode := if c.mode == Registered then Changed else Done, page := 1)
              && more == items && IsPageCount(config.pageSize, |items|, calls + 1)
  {
    RenderedIsReceived(config, c, items);
    DeliveredGrows(config.pageSize, |items|, c.page);
    PageArithmetic(config.pageSize, |items|, c.page);
    PagesBound(config.pageSize, c.page);
    SliceExtends(config.pageSize, items, c.page);
  }

  lemma SliceExtends(pageSize: nat, items: seq<Json>, page: nat)
    requires page >= 1
    ensures var from := Before(pageSize, |items|, page);
            && items[..from] + Slice(pageSize, items, page) == items[..from + Expected(pageSize, |items|, page)]
            && items[..|items|] == items
  {
  }

  /** Reading one window page by page delivers exactly the registered and then the changed items, in order, in
      one call per page of either list, each of which succeeds, and leaves the cursor done at its end. */
  method DrainWindow(config: Config, window: Cursor, now: int, registered: seq<Json>, changed: seq<Json>)
    returns (delivered: seq<Json>, registeredCalls: nat, changedCalls: nat, last: Cursor)
    requires ValidConfig(config) && Stored(window, now)
    requires window.mode == Registered && window.page == 1
    requires AllIdentified(config, registered) && AllIdentified(config, changed)
    ensures delivered == registered + changed
    ensures last == window.(mode := Done)
    ensures IsPageCount(config.pageSize, |registered|, registeredCalls)
    ensures IsPageCount(config.pageSize, |changed|, changedCalls)
  {
    var reply := StableServer(config, registered, changed);
    var first, middle := ReadList(config, window, now, registered, reply);
    delivered, registeredCalls := first.0, first.1;
    var second, end := ReadList(config, middle, now, changed, reply);
    delivered, changedCalls, last := delivered + second.0, second.1, end;
  }

  /** Calls discovery until the cursor leaves the list it is reading. */
  method ReadList(config: Config, start: Cursor, now: int, items: seq<Json>, reply: Server)
    returns (read: (seq<Json>, nat), next: Cursor)
    requires ValidConfig(config) && Stored(start, now) && start.mode != Done && start.page == 1
    requires AllIdentified(config, items)
    requires forall c: Cursor :: c.mode == start.mode && c.page >= 1 ==> reply(c) == Some(Render(config, items, c.page))
    ensures read.0 == items && IsPageCount(config.pageSize, |items|, read.1)
    ensures next == start.(mode := if start.mode == Registered then Changed else Done)
  {
    next := start;
    var delivered: seq<Json>, calls := [], 0;
    while next.mode == start.mode
      invariant next.page >= 1
      invariant next.mode == start.mode ==>
                  next == start.(page := next.page) && HasRead(config, next, items, delivered, calls) && next.page <= |items| + 1
      invariant next.mode != start.mode ==>
                  && next == start.(mode := if start.mode == Registered then Changed else Done)
                  && delivered == items && IsPageCount(config.pageSize, |items|, calls)
      decreases if next.mode == start.mode then |items| + 2 - next.page else 0
    {
      OneCall(config, next, now, items, delivered, calls, reply);
      var result := RunDiscover(config, Some(next), now, reply);
      delivered, calls := delivered + result.value.records, calls + 1;
      next := result.value.next;
    }
    read := (delivered, calls);
  }

  lemma PagesBound(pageSize: nat, page: nat)
    requires pageSize >= 1 && page >= 1
    ensures (page - 1) * pageSize >= page - 1
    ensures page * pageSize >= page
  {
  }
}
