// Coupons: rows in the database, copies in a cache that may drop them at any time, and
// the validation that reads whichever it finds.
module CouponCache {
  import opened Base

  /** `terms` stands for the columns that validation does not read. */
  datatype Coupon = Coupon(code: string, terms: int, usageLimit: int, usedCount: int,
                           startDate: Option<int>, endDate: Option<int>, isActive: bool)

  /** A date as a request carries it: the instant that the database makes of the text, and
      the number that the language reads the text as, if it reads one. "2099" is both. */
  datatype DateText = DateText(instant: int, number: Option<real>)

  /** A date in a cached copy: still a date, or text. Comparing the clock with text compares
      it with the number read, and is false on both sides when there is none. */
  datatype Form = Dated | Text(number: Option<real>)

  /** A cached copy: the coupon, and in what form it holds each of the dates it has. */
  datatype Copy = Copy(coupon: Coupon, start: Form, end: Form)

  datatype CreateDto = CreateDto(code: string, terms: int, usageLimit: Option<int>,
                                 startDate: Option<DateText>, endDate: Option<DateText>, isActive: Option<bool>)

  /** A date in an update: absent, null, or a new one. */
  datatype Change = Unchanged | Cleared | Changed(date: DateText)

  datatype UpdateDto = UpdateDto(code: Option<string>, terms: Option<int>, usageLimit: Option<int>,
                                 startDate: Change, endDate: Change, isActive: Option<bool>)

  /** A row's id is its position; `serialises` says whether the store turns dates to text. */
  datatype State = State(rows: seq<Coupon>, cache: map<string, Copy>, serialises: bool)

  datatype Op =
    | Create(newCoupon: CreateDto)
    | Update(id: nat, change: UpdateDto)
    | Remove(id: nat)
    | Validate(code: string, now: int)
    | Evict(code: string)

  datatype Verdict = Invalid | NotYetActive | Expired | LimitReached | Valid(coupon: Coupon)

  datatype Reply = Stored(row: Coupon) | NotFound | UniqueViolation | Removed | Judged(verdict: Verdict) | Evicted

  // ----- Reading -----

  function FindByCode(rows: seq<Coupon>, code: string): (at: Option<nat>)
    ensures at.Some? ==> at.value < |rows| && rows[at.value].code == code
    ensures at.None? ==> forall c :: c in rows ==> c.code != code
  {
    FirstWhere(rows, (c: Coupon) => c.code == code)
  }

  predicate Before(now: int, date: Option<int>, form: Form) {
    && date.Some?
    && match form
       case Dated => now < date.value
       case Text(number) => number.Some? && now as real < number.value
  }

  predicate After(now: int, date: Option<int>, form: Form) {
    && date.Some?
    && match form
       case Dated => now > date.value
       case Text(number) => number.Some? && now as real > number.value
  }

  /** The checks of validateCoupon, on whatever copy of the coupon is at hand. */
  function Judge(c: Copy, now: int): Verdict {
    if !c.coupon.isActive then Invalid
    else if Before(now, c.coupon.startDate, c.start) then NotYetActive
    else if After(now, c.coupon.endDate, c.end) then Expired
    else if c.coupon.usageLimit > 0 && c.coupon.usedCount >= c.coupon.usageLimit then LimitReached
    else Valid(c.coupon)
  }

  /** As read from the database, where dates are dates. */
  function FromRow(c: Coupon): Copy {
    Copy(c, Dated, Dated)
  }

  /** What the code would answer with no cache at all. */
  function UncachedVerdict(rows: seq<Coupon>, code: string, now: int): Verdict {
    var at := FindByCode(rows, code);
    if at.Some? && rows[at.value].isActive then Judge(FromRow(rows[at.value]), now) else Invalid
  }

  // ----- The operations -----

  function InstantOf(date: Option<DateText>): Option<int> {
    if date.Some? then Some(date.value.instant) else None
  }

  function ToRow(dto: CreateDto): Coupon {
    Coupon(dto.code, dto.terms, dto.usageLimit.GetOr(0), 0, InstantOf(dto.startDate), InstantOf(dto.endDate),
           dto.isActive.GetOr(true))
  }

  function Replaced(date: Option<int>, change: Change): Option<int> {
    match change
    case Unchanged => date
    case Cleared => None
    case Changed(d) => Some(d.instant)
  }

  function Assigned(c: Coupon, dto: UpdateDto): Coupon {
    Coupon(dto.code.GetOr(c.code), dto.terms.GetOr(c.terms), dto.usageLimit.GetOr(c.usageLimit), c.usedCount,
           Replaced(c.startDate, dto.startDate), Replaced(c.endDate, dto.endDate), dto.isActive.GetOr(c.isActive))
  }

  function CreatedForm(date: Option<DateText>): Form {
    if date.Some? then Text(date.value.number) else Dated
  }

  function UpdatedForm(change: Change): Form {
    if change.Changed? then Text(change.date.number) else Dated
  }

  /** What `save` returns: the entity, with the texts of the request still in it. */
  function CreatedCopy(dto: CreateDto): Copy {
    Copy(ToRow(dto), CreatedForm(dto.startDate), CreatedForm(dto.endDate))
  }

  function UpdatedCopy(row: Coupon, dto: UpdateDto): Copy {
    Copy(row, UpdatedForm(dto.startDate), UpdatedForm(dto.endDate))
  }

  /** A date becomes its full ISO text, which reads as no number. */
  function StoredForm(form: Form, serialises: bool): Form {
    if serialises && form.Dated? then Text(None) else form
  }

  function StoredCopy(c: Copy, serialises: bool): Copy {
    c.(start := StoredForm(c.start, serialises), end := StoredForm(c.end, serialises))
  }

  /** `cacheManager.set`, as a later `get` will see it. */
  function Put(s: State, c: Copy): State {
    s.(cache := s.cache[c.coupon.code := StoredCopy(c, s.serialises)])
  }

  predicate CodeTaken(rows: seq<Coupon>, code: string, owner: nat) {
    var at := FindByCode(rows, code);
    at.Some? && at.value != owner
  }

  function Apply(s: State, op: Op): (State, Reply) {
    match op
    case Create(dto) =>
      if FindByCode(s.rows, dto.code).Some? then (s, UniqueViolation)
      else
        var row := ToRow(dto);
        (Put(s.(rows := s.rows + [row]), CreatedCopy(dto)), Stored(row))
    case Update(id, dto) =>
      if id >= |s.rows| then (s, NotFound)
      else
        var row := Assigned(s.rows[id], dto);
        if CodeTaken(s.rows, row.code, id) then (s, UniqueViolation)
        else
          var cache := if row.code != s.rows[id].code then s.cache - {s.rows[id].code} else s.cache;
          (Put(s.(rows := s.rows[id := row], cache := cache), UpdatedCopy(row, dto)), Stored(row))
    case Remove(id) =>
      if id >= |s.rows| then (s, NotFound)
      else
        (s.(rows := s.rows[id := s.rows[id].(isActive := false)], cache := s.cache - {s.rows[id].code}), Removed)
    case Validate(code, now) =>
      if code in s.cache then (s, Judged(Judge(s.cache[code], now)))
      else
        var at := FindByCode(s.rows, code);
        if at.Some? && s.rows[at.value].isActive
        then (Put(s, FromRow(s.rows[at.value])), Judged(Judge(FromRow(s.rows[at.value]), now)))
        else (s, Judged(Invalid))
    case Evict(code) => (s.(cache := s.cache - {code}), Evicted)
  }

  function Run(s: State, ops: seq<Op>): State
    decreases |ops|
  {
    if ops == [] then s else Run(Apply(s, ops[0]).0, ops[1..])
  }

  // ----- Copies agree with rows -----

  ghost predicate UniqueCodes(rows: seq<Coupon>) {
    forall i, j :: 0 <= i < j < |rows| ==> rows[i].code != rows[j].code
  }

  ghost predicate CopiesAgree(s: State) {
    forall code :: code in s.cache ==> s.cache[code].coupon.code == code && s.cache[code].coupon in s.rows
  }

  ghost predicate Inv(s: State) {
    UniqueCodes(s.rows) && CopiesAgree(s)
  }

  lemma ApplyKeepsInv(s: State, op: Op)
    requires Inv(s)
    ensures Inv(Apply(s, op).0)
  {
    match op
    case Create(dto) => CreateKeepsInv(s, dto);
    case Update(id, dto) => UpdateKeepsInv(s, id, dto);
    case Remove(id) => RemoveKeepsInv(s, id);
    case Validate(code, now) =>
    case Evict(code) =>
  }

  lemma CreateKeepsInv(s: State, dto: CreateDto)
    requires Inv(s)
    ensures Inv(Apply(s, Create(dto)).0)
  {
    assert forall c :: c in s.rows ==> c in s.rows + [ToRow(dto)];
    assert ToRow(dto) in s.rows + [ToRow(dto)];
  }

  /** Replacing one row keeps the codes unique, and every copy of another row in place. */
  lemma RowReplaced(s: State, id: nat, row: Coupon)
    requires Inv(s) && id < |s.rows| && !CodeTaken(s.rows, row.code, id)
    ensures UniqueCodes(s.rows[id := row])
    ensures row in s.rows[id := row]
    ensures forall code :: code in s.cache && code != s.rows[id].code ==> s.cache[code].coupon in s.rows[id := row]
    ensures row.code == s.rows[id].code || row.code !in s.cache
  {
    var rows' := s.rows[id := row];
    assert rows'[id] == row;
    forall i | 0 <= i < |s.rows| && i != id
      ensures s.rows[i].code != row.code
    {
      var at := FindByCode(s.rows, row.code);
      assert s.rows[i] in s.rows;
    }
    forall code | code in s.cache && code != s.rows[id].code
      ensures s.cache[code].coupon in rows'
      ensures code != row.code
    {
      var i :| 0 <= i < |s.rows| && s.rows[i] == s.cache[code].coupon;
      assert rows'[i] == s.rows[i];
    }
  }

  lemma UpdateKeepsInv(s: State, id: nat, dto: UpdateDto)
    requires Inv(s)
    ensures Inv(Apply(s, Update(id, dto)).0)
  {
    if id < |s.rows| && !CodeTaken(s.rows, Assigned(s.rows[id], dto).code, id) {
      RowReplaced(s, id, Assigned(s.rows[id], dto));
    }
  }

  lemma RemoveKeepsInv(s: State, id: nat)
    requires Inv(s)
    ensures Inv(Apply(s, Remove(id)).0)
  {
    if id < |s.rows| {
      OwnCodeIsFree(s.rows, id);
      RowReplaced(s, id, s.rows[id].(isActive := false));
    }
  }

  lemma OwnCodeIsFree(rows: seq<Coupon>, id: nat)
    requires UniqueCodes(rows) && id < |rows|
    ensures !CodeTaken(rows, rows[id].code, id)
  {
  }

  lemma {:induction false} RunKeepsInv(s: State, ops: seq<Op>)
    requires Inv(s)
    ensures Inv(Run(s, ops))
    decreases |ops|
  {
    if ops == [] {
    } else {
      ApplyKeepsInv(s, ops[0]);
      RunKeepsInv(Apply(s, ops[0]).0, ops[1..]);
    }
  }

  /** In every run, under any eviction, a cached coupon is the row with its code. */
  lemma CachedCouponIsTheRow(serialises: bool, ops: seq<Op>, code: string)
    requires code in Run(State([], map[], serialises), ops).cache
    ensures
      var s := Run(State([], map[], serialises), ops);
      var at := FindByCode(s.rows, code);
      at.Some? && s.cache[code].coupon == s.rows[at.value]
  {
    RunKeepsInv(State([], map[], serialises), ops);
    var s := Run(State([], map[], serialises), ops);
    CopyIsFound(s, code);
  }

  lemma CopyIsFound(s: State, code: string)
    requires Inv(s) && code in s.cache
    ensures FindByCode(s.rows, code).Some? && s.rows[FindByCode(s.rows, code).value] == s.cache[code].coupon
  {
    var i :| 0 <= i < |s.rows| && s.rows[i] == s.cache[code].coupon;
    assert FindByCode(s.rows, code).value == i;
  }

  // ----- What a request does to the verdicts -----

  /** The verdict on a row, spelt out. */
  lemma VerdictOfRow(rows: seq<Coupon>, i: nat, now: int)
    requires UniqueCodes(rows) && i < |rows|
    ensures
      var c := rows[i];
      UncachedVerdict(rows, c.code, now) ==
        if !c.isActive then Invalid
        else if c.startDate.Some? && now < c.startDate.value then NotYetActive
        else if c.endDate.Some? && now > c.endDate.value then Expired
        else if c.usageLimit > 0 && c.usedCount >= c.usageLimit then LimitReached
        else Valid(c)
  {
    assert rows[i] in rows;
    assert FindByCode(rows, rows[i].code) == Some(i);
  }

  lemma NoRowIsInvalid(rows: seq<Coupon>, code: string, now: int)
    requires forall c :: c in rows ==> c.code != code
    ensures UncachedVerdict(rows, code, now) == Invalid
  {
  }

  /** Rows in the same places, or more of them, judge a code alike if its row is the same. */
  lemma SameRowSameVerdict(rows: seq<Coupon>, rows': seq<Coupon>, code: string, now: int)
    requires UniqueCodes(rows) && UniqueCodes(rows')
    requires forall c: Coupon :: c.code == code ==> (c in rows <==> c in rows')
    ensures UncachedVerdict(rows', code, now) == UncachedVerdict(rows, code, now)
  {
    var at := FindByCode(rows, code);
    if at.Some? {
      assert rows[at.value] in rows;
      var j :| 0 <= j < |rows'| && rows'[j] == rows[at.value];
      VerdictOfRow(rows, at.value, now);
      VerdictOfRow(rows', j, now);
    } else {
      NoRowIsInvalid(rows, code, now);
      NoRowIsInvalid(rows', code, now);
    }
  }

  /** A coupon is created exactly under a free code. From then on it is judged by the request:
      active unless it says otherwise, without a limit or a date that it leaves out. */
  lemma CreatedVerdict(s: State, dto: CreateDto, code: string, now: int)
    requires Inv(s)
    ensures
      var (s', reply) := Apply(s, Create(dto));
      if exists c :: c in s.rows && c.code == dto.code then reply == UniqueViolation && s' == s
      else
        && reply == Stored(s'.rows[|s.rows|])
        && UncachedVerdict(s'.rows, dto.code, now) ==
          (if dto.isActive == Some(false) then Invalid
           else if dto.startDate.Some? && now < dto.startDate.value.instant then NotYetActive
           else if dto.endDate.Some? && now > dto.endDate.value.instant then Expired
           else Valid(Coupon(dto.code, dto.terms, if dto.usageLimit.Some? then dto.usageLimit.value else 0, 0,
                             InstantOf(dto.startDate), InstantOf(dto.endDate), true)))
        && (code != dto.code ==> UncachedVerdict(s'.rows, code, now) == UncachedVerdict(s.rows, code, now))
  {
    var s' := Apply(s, Create(dto)).0;
    ApplyKeepsInv(s, Create(dto));
    if s' != s {
      assert s'.rows == s.rows + [ToRow(dto)];
      VerdictOfRow(s'.rows, |s.rows|, now);
      if code != dto.code {
        SameRowSameVerdict(s.rows, s'.rows, code, now);
      }
    }
  }

  /** After a removal the coupon's code is invalid at every time, cached or not; every other
      code is judged as before. */
  lemma RemovedVerdict(s: State, id: nat, code: string, now: int)
    requires Inv(s) && id < |s.rows|
    ensures
      var (s', reply) := Apply(s, Remove(id));
      && reply == Removed
      && Apply(s', Validate(s.rows[id].code, now)).1 == Judged(Invalid)
      && (code != s.rows[id].code ==> Apply(s', Validate(code, now)).1 == Apply(s, Validate(code, now)).1)
  {
    var s' := Apply(s, Remove(id)).0;
    ApplyKeepsInv(s, Remove(id));
    VerdictOfRow(s'.rows, id, now);
    if code != s.rows[id].code {
      OtherRowsStay(s.rows, id, s'.rows[id], code);
      SameRowSameVerdict(s.rows, s'.rows, code, now);
    }
  }

  lemma OtherRowsStay(rows: seq<Coupon>, id: nat, row: Coupon, code: string)
    requires id < |rows| && rows[id].code != code && row.code != code
    ensures forall c: Coupon :: c.code == code ==> (c in rows <==> c in rows[id := row])
  {
    var rows' := rows[id := row];
    forall c: Coupon | c.code == code && (c in rows || c in rows')
      ensures c in rows && c in rows'
    {
      var i :| 0 <= i < |rows| && (rows[i] == c || rows'[i] == c);
      assert i != id && rows[i] == rows'[i];
    }
  }

  lemma TakenIff(rows: seq<Coupon>, code: string, id: nat)
    requires UniqueCodes(rows)
    ensures CodeTaken(rows, code, id) <==> exists j :: 0 <= j < |rows| && j != id && rows[j].code == code
  {
    if j :| 0 <= j < |rows| && j != id && rows[j].code == code {
      assert rows[j] in rows;
      assert FindByCode(rows, code) == Some(j);
    }
  }

  lemma GivenUpCode(rows: seq<Coupon>, id: nat, row: Coupon)
    requires UniqueCodes(rows) && id < |rows| && row.code != rows[id].code
    ensures forall c :: c in rows[id := row] ==> c.code != rows[id].code
  {
  }

  function NewCode(c: Coupon, dto: UpdateDto): string {
    if dto.code.Some? then dto.code.value else c.code
  }

  /** An update is refused exactly for a code that another coupon has. Otherwise the row has
      the given fields, and the others as they were. */
  lemma UpdatedRow(s: State, id: nat, dto: UpdateDto)
    requires Inv(s) && id < |s.rows|
    ensures
      var (s', reply) := Apply(s, Update(id, dto));
      if exists j :: 0 <= j < |s.rows| && j != id && s.rows[j].code == NewCode(s.rows[id], dto)
      then reply == UniqueViolation && s' == s
      else
        var c, row := s.rows[id], s'.rows[id];
        && reply == Stored(row)
        && row.code == NewCode(c, dto) && row.usedCount == c.usedCount
        && row.terms == (if dto.terms.Some? then dto.terms.value else c.terms)
        && row.usageLimit == (if dto.usageLimit.Some? then dto.usageLimit.value else c.usageLimit)
        && row.isActive == (if dto.isActive.Some? then dto.isActive.value else c.isActive)
        && row.startDate == (if dto.startDate.Changed? then Some(dto.startDate.date.instant)
                             else if dto.startDate.Cleared? then None else c.startDate)
        && row.endDate == (if dto.endDate.Changed? then Some(dto.endDate.date.instant)
                           else if dto.endDate.Cleared? then None else c.endDate)
  {
    TakenIff(s.rows, NewCode(s.rows[id], dto), id);
  }

  /** After an update a code that the coupon gave up is invalid, and every code of another
      coupon is judged as before. */
  lemma UpdatedVerdict(s: State, id: nat, dto: UpdateDto, code: string, now: int)
    requires Inv(s) && id < |s.rows| && !CodeTaken(s.rows, NewCode(s.rows[id], dto), id)
    ensures
      var s', old_, new_ := Apply(s, Update(id, dto)).0, s.rows[id].code, NewCode(s.rows[id], dto);
      && (new_ != old_ ==> Apply(s', Validate(old_, now)).1 == Judged(Invalid))
      && (code != new_ && code != old_ ==> Apply(s', Validate(code, now)).1 == Apply(s, Validate(code, now)).1)
  {
    var s', row := Apply(s, Update(id, dto)).0, Assigned(s.rows[id], dto);
    ApplyKeepsInv(s, Update(id, dto));
    assert s'.rows == s.rows[id := row];
    if row.code != s.rows[id].code {
      GivenUpCode(s.rows, id, row);
      NoRowIsInvalid(s'.rows, s.rows[id].code, now);
    }
    if code != row.code && code != s.rows[id].code {
      OtherRowsStay(s.rows, id, row, code);
      SameRowSameVerdict(s.rows, s'.rows, code, now);
    }
  }

  /** Which coupons have a copy after any request. */
  lemma CachedAfter(s: State, op: Op, code: string)
    requires Inv(s)
    ensures
      var (s', reply) := Apply(s, op);
      code in s'.cache <==>
        match op
        case Create(dto) => code in s.cache || (reply.Stored? && code == dto.code)
        case Update(id, dto) =>
          if reply.Stored? && id < |s.rows| then
            code == NewCode(s.rows[id], dto) || (code in s.cache && code != s.rows[id].code)
          else code in s.cache
        case Remove(id) => code in s.cache && !(id < |s.rows| && s.rows[id].code == code)
        case Validate(asked, _) =>
          code in s.cache || (code == asked && exists c :: c in s.rows && c.code == code && c.isActive)
        case Evict(dropped) => code in s.cache && code != dropped
  {
    match op
    case Validate(asked, _) =>
      var at := FindByCode(s.rows, asked);
      if at.Some? {
        assert s.rows[at.value] in s.rows;
        assert forall c :: c in s.rows && c.code == asked ==> c == s.rows[at.value];
      }
    case _ =>
  }

  /** A date goes into the cache as the text of the request, if the request has one, and else
      as the date it is; a store that serialises makes that text, too. */
  lemma CachedForms(s: State, op: Op, code: string)
    requires Inv(s) && code in Apply(s, op).0.cache
    ensures
      var c, given := Apply(s, op).0.cache[code], if s.serialises then Text(None) else Dated;
      match op
      case Create(dto) =>
        code == dto.code && Apply(s, op).1.Stored? ==>
          && c.start == (if dto.startDate.Some? then Text(dto.startDate.value.number) else given)
          && c.end == (if dto.endDate.Some? then Text(dto.endDate.value.number) else given)
      case Update(id, dto) =>
        Apply(s, op).1.Stored? && code == Apply(s, op).1.row.code ==>
          && c.start == (if dto.startDate.Changed? then Text(dto.startDate.date.number) else given)
          && c.end == (if dto.endDate.Changed? then Text(dto.endDate.date.number) else given)
      case Validate(_, _) => if code in s.cache then c == s.cache[code] else c.start == c.end == given
      case _ => code in s.cache && c == s.cache[code]
  {
  }

  // ----- When the cached verdict is the uncached one -----

  /** A coupon is accepted exactly inside its window and under its limit. */
  lemma AcceptedIff(rows: seq<Coupon>, code: string, now: int, c: Coupon)
    requires UniqueCodes(rows)
    ensures UncachedVerdict(rows, code, now) == Valid(c) <==>
      && c in rows && c.code == code && c.isActive
      && (c.startDate.Some? ==> c.startDate.value <= now)
      && (c.endDate.Some? ==> now <= c.endDate.value)
      && (c.usageLimit > 0 ==> c.usedCount < c.usageLimit)
  {
    if c in rows && c.code == code {
      var i :| 0 <= i < |rows| && rows[i] == c;
      assert FindByCode(rows, code).value == i;
    }
  }

  /** The start is text, and the number it reads as, if any, lies on the other side of the
      clock than the date. */
  predicate StartMisread(c: Copy, now: int) {
    && c.coupon.startDate.Some? && c.start.Text?
    && if now < c.coupon.startDate.value then c.start.number.None? || c.start.number.value <= now as real
       else c.start.number.Some? && now as real < c.start.number.value
  }

  predicate EndMisread(c: Copy, now: int) {
    && c.coupon.endDate.Some? && c.end.Text?
    && if now > c.coupon.endDate.value then c.end.number.None? || now as real <= c.end.number.value
       else c.end.number.Some? && c.end.number.value < now as real
  }

  predicate TooEarly(c: Coupon, now: int) {
    c.startDate.Some? && now < c.startDate.value
  }

  predicate Over(c: Coupon, now: int) {
    c.endDate.Some? && now > c.endDate.value
  }

  /** A misread start always shows; a misread end does unless the coupon is too early anyway. */
  predicate Misjudged(c: Copy, now: int) {
    c.coupon.isActive && (StartMisread(c, now) || (!TooEarly(c.coupon, now) && EndMisread(c, now)))
  }

  /** Validation answers as it would without a cache, except exactly when it reads a copy
      whose text puts the clock on the wrong side of a date. */
  lemma VerdictIsUncachedIff(s: State, code: string, now: int)
    requires Inv(s)
    ensures
      Apply(s, Validate(code, now)).1 == Judged(UncachedVerdict(s.rows, code, now))
      <==> !(code in s.cache && Misjudged(s.cache[code], now))
  {
    if code in s.cache {
      CopyIsFound(s, code);
    }
  }

  /** Every date that a copy has is still a date. */
  predicate KeepsDates(s: State) {
    forall code :: code in s.cache ==>
      && (s.cache[code].coupon.startDate.Some? ==> s.cache[code].start.Dated?)
      && (s.cache[code].coupon.endDate.Some? ==> s.cache[code].end.Dated?)
  }

  /** A request that stores dates in the cache as the text it received. */
  predicate StoresTextDates(op: Op) {
    || (op.Create? && (op.newCoupon.startDate.Some? || op.newCoupon.endDate.Some?))
    || (op.Update? && (op.change.startDate.Changed? || op.change.endDate.Changed?))
  }

  lemma {:induction false} TypedRunKeepsDates(s: State, ops: seq<Op>)
    requires !s.serialises && KeepsDates(s) && forall op :: op in ops ==> !StoresTextDates(op)
    ensures KeepsDates(Run(s, ops)) && !Run(s, ops).serialises
    decreases |ops|
  {
    if ops == [] {
    } else {
      assert ops[0] in ops;
      TypedRunKeepsDates(Apply(s, ops[0]).0, ops[1..]);
    }
  }

  /** With a store that keeps dates, and until a request writes dates into the cache, every
      verdict is the uncached one. */
  lemma TypedRunsJudgeAsUncached(s: State, ops: seq<Op>, code: string, now: int)
    requires Inv(s) && !s.serialises && KeepsDates(s) && forall op :: op in ops ==> !StoresTextDates(op)
    ensures Apply(Run(s, ops), Validate(code, now)).1 == Judged(UncachedVerdict(Run(s, ops).rows, code, now))
  {
    RunKeepsInv(s, ops);
    TypedRunKeepsDates(s, ops);
    VerdictIsUncachedIff(Run(s, ops), code, now);
  }

  // ----- The store that serialises -----

  predicate AllText(s: State) {
    forall code :: code in s.cache ==> s.cache[code].start.Text? && s.cache[code].end.Text?
  }

  lemma {:induction false} SerialisedRunIsText(s: State, ops: seq<Op>)
    requires s.serialises && AllText(s)
    ensures Run(s, ops).serialises && AllText(Run(s, ops))
    decreases |ops|
  {
    if ops == [] {
    } else {
      SerialisedRunIsText(Apply(s, ops[0]).0, ops[1..]);
    }
  }

  /** The number is on the same side of the clock as the start. */
  predicate StartReadsRight(date: Option<int>, number: Option<real>, now: int) {
    date.Some? ==> (now < date.value <==> number.Some? && now as real < number.value)
  }

  predicate EndReadsRight(date: Option<int>, number: Option<real>, now: int) {
    date.Some? ==> (now > date.value <==> number.Some? && now as real > number.value)
  }

  /** The numbers that the dates read as are on the right sides of the clock, the end's
      mattering only once the coupon has started; or the coupon is inactive anyway. */
  predicate ReadsRight(c: Copy, now: int)
    requires c.start.Text? && c.end.Text?
  {
    || !c.coupon.isActive
    || (&& StartReadsRight(c.coupon.startDate, c.start.number, now)
        && (TooEarly(c.coupon, now) || EndReadsRight(c.coupon.endDate, c.end.number, now)))
  }

  lemma MisjudgedUnlessReadRight(c: Copy, now: int)
    requires c.start.Text? && c.end.Text?
    ensures Misjudged(c, now) <==> !ReadsRight(c, now)
  {
  }

  /** With a store that serialises, over every run: the verdict is the uncached one if and only
      if the coupon is not cached, or its dates read right. */
  lemma SerialisedVerdictIff(ops: seq<Op>, code: string, now: int)
    ensures Run(State([], map[], true), ops).serialises && AllText(Run(State([], map[], true), ops))
    ensures
      var s := Run(State([], map[], true), ops);
      Apply(s, Validate(code, now)).1 == Judged(UncachedVerdict(s.rows, code, now))
      <==> code !in s.cache || ReadsRight(s.cache[code], now)
  {
    var s := Run(State([], map[], true), ops);
    RunKeepsInv(State([], map[], true), ops);
    SerialisedRunIsText(State([], map[], true), ops);
    VerdictIsUncachedIff(s, code, now);
    if code in s.cache {
      MisjudgedUnlessReadRight(s.cache[code], now);
    }
  }

  /** Every number that a date of the requests reads as has passed on the clock. */
  predicate Passed(number: Option<real>, now: int) {
    number.Some? ==> number.value < now as real
  }

  predicate NumbersPassed(op: Op, now: int) {
    match op
    case Create(dto) =>
      && (dto.startDate.Some? ==> Passed(dto.startDate.value.number, now))
      && (dto.endDate.Some? ==> Passed(dto.endDate.value.number, now))
    case Update(_, dto) =>
      && (dto.startDate.Changed? ==> Passed(dto.startDate.date.number, now))
      && (dto.endDate.Changed? ==> Passed(dto.endDate.date.number, now))
    case _ => true
  }

  predicate CopiesPassed(s: State, now: int) {
    forall code :: code in s.cache ==>
      && (s.cache[code].start.Text? ==> Passed(s.cache[code].start.number, now))
      && (s.cache[code].end.Text? ==> Passed(s.cache[code].end.number, now))
  }

  lemma StepKeepsCopiesPassed(s: State, op: Op, now: int)
    requires CopiesPassed(s, now) && NumbersPassed(op, now)
    ensures CopiesPassed(Apply(s, op).0, now)
  {
  }

  lemma {:induction false} RunKeepsCopiesPassed(s: State, ops: seq<Op>, now: int)
    requires CopiesPassed(s, now) && forall op :: op in ops ==> NumbersPassed(op, now)
    ensures CopiesPassed(Run(s, ops), now)
    decreases |ops|
  {
    if ops == [] {
    } else {
      assert ops[0] in ops;
      StepKeepsCopiesPassed(s, ops[0], now);
      RunKeepsCopiesPassed(Apply(s, ops[0]).0, ops[1..], now);
    }
  }

  /** An ISO 8601 text that reads as a number has eight digits at most, so the clock passed that
      number on the second of January 1970. Then the verdict of a cached, active coupon is the
      uncached one if and only if it has started, and has an end that reads as a number exactly
      when it is over. */
  lemma IsoVerdictIff(ops: seq<Op>, code: string, now: int)
    requires forall op :: op in ops ==> NumbersPassed(op, now)
    ensures Run(State([], map[], true), ops).serialises && AllText(Run(State([], map[], true), ops))
    ensures
      var s := Run(State([], map[], true), ops);
      Apply(s, Validate(code, now)).1 == Judged(UncachedVerdict(s.rows, code, now))
      <==> code !in s.cache ||
           var c := s.cache[code];
           || !c.coupon.isActive
           || (!TooEarly(c.coupon, now) &&
               (c.coupon.endDate.Some? ==> (Over(c.coupon, now) <==> c.end.number.Some?)))
  {
    SerialisedVerdictIff(ops, code, now);
    RunKeepsCopiesPassed(State([], map[], true), ops, now);
  }

  // ----- The exceptions are real -----

  /** The state behind one create, whatever the store. */
  lemma OneCoupon(dto: CreateDto, serialises: bool)
    ensures
      var s := Apply(State([], map[], serialises), Create(dto)).0;
      && s.rows == [ToRow(dto)] && FindByCode(s.rows, dto.code) == Some(0)
      && s.cache == map[dto.code := StoredCopy(CreatedCopy(dto), serialises)]
  {
    var s := Apply(State([], map[], serialises), Create(dto)).0;
    assert s.rows == [ToRow(dto)];
    assert s.rows[0] in s.rows;
  }

  /** Any coupon created to start later validates at once, unless the start reads as a number
      that is still ahead. */
  lemma FreshCouponIgnoresItsStart(code: string, start: DateText, serialises: bool, now: int)
    requires now < start.instant && !Before(now, Some(start.instant), Text(start.number))
    ensures
      var dto := CreateDto(code, 0, None, Some(start), None, None);
      var s := Apply(State([], map[], serialises), Create(dto)).0;
      && Apply(s, Validate(code, now)).1 == Judged(Valid(ToRow(dto)))
      && UncachedVerdict(s.rows, code, now) == NotYetActive
  {
    OneCoupon(CreateDto(code, 0, None, Some(start), None, None), serialises);
  }

  /** Any coupon created to end later, on a date that reads as a number behind the clock, is
      expired at once. A year alone does: "2099" is 2099 milliseconds into 1970. */
  lemma NumericEndExpiresAtOnce(code: string, end: DateText, serialises: bool, now: int)
    requires now <= end.instant && end.number.Some? && end.number.value < now as real
    ensures
      var dto := CreateDto(code, 0, None, None, Some(end), None);
      var s := Apply(State([], map[], serialises), Create(dto)).0;
      && Apply(s, Validate(code, now)).1 == Judged(Expired)
      && UncachedVerdict(s.rows, code, now) == Valid(ToRow(dto))
  {
    OneCoupon(CreateDto(code, 0, None, None, Some(end), None), serialises);
  }

  // ----- The service -----

  class Service {
    const serialises: bool
    var rows: seq<Coupon>
    var cache: map<string, Copy>

    ghost function Contents(): State
      reads this
    {
      State(rows, cache, serialises)
    }

    ghost predicate Valid()
      reads this
    {
      Inv(Contents())
    }

    constructor (storeSerialises: bool)
      ensures Valid() && Contents() == State([], map[], storeSerialises)
    {
      serialises, rows, cache := storeSerialises, [], map[];
    }

    method Set(c: Copy)
      modifies this`cache
      ensures Contents() == Put(old(Contents()), c)
    {
      cache := cache[c.coupon.code := StoredCopy(c, serialises)];
    }

    method Create(dto: CreateDto) returns (reply: Reply)
      requires Valid()
      modifies this
      ensures Valid()
      ensures (Contents(), reply) == Apply(old(Contents()), Op.Create(dto))
    {
      ApplyKeepsInv(Contents(), Op.Create(dto));
      if FindByCode(rows, dto.code).Some? {
        return UniqueViolation;
      }
      var saved := ToRow(dto);
      rows := rows + [saved];
      Set(CreatedCopy(dto));
      return Stored(saved);
    }

    method Update(id: nat, dto: UpdateDto) returns (reply: Reply)
      requires Valid()
      modifies this
      ensures Valid()
      ensures (Contents(), reply) == Apply(old(Contents()), Op.Update(id, dto))
    {
      ApplyKeepsInv(Contents(), Op.Update(id, dto));
      if id >= |rows| {
        return NotFound;
      }
      var oldCode := rows[id].code;
      var saved := Assigned(rows[id], dto);
      if CodeTaken(rows, saved.code, id) {
        return UniqueViolation;
      }
      rows := rows[id := saved];
      if oldCode != saved.code {
        cache := cache - {oldCode};
      }
      Set(UpdatedCopy(saved, dto));
      return Stored(saved);
    }

    method Remove(id: nat) returns (reply: Reply)
      requires Valid()
      modifies this
      ensures Valid()
      ensures (Contents(), reply) == Apply(old(Contents()), Op.Remove(id))
    {
      ApplyKeepsInv(Contents(), Op.Remove(id));
      if id >= |rows| {
        return NotFound;
      }
      rows := rows[id := rows[id].(isActive := false)];
      cache := cache - {rows[id].code};
      return Removed;
    }

    method ValidateCoupon(code: string, now: int) returns (verdict: Verdict)
      requires Valid()
      modifies this`cache
      ensures Valid()
      ensures (Contents(), Judged(verdict)) == Apply(old(Contents()), Validate(code, now))
    {
      ApplyKeepsInv(Contents(), Validate(code, now));
      var coupon;
      if code in cache {
        coupon := cache[code];
      } else {
        var at := FindByCode(rows, code);
        if at.None? || !rows[at.value].isActive {
          return Invalid;
        }
        coupon := FromRow(rows[at.value]);
        Set(coupon);
      }
      if !coupon.coupon.isActive {
        return Invalid;
      }
      if Before(now, coupon.coupon.startDate, coupon.start) {
        return NotYetActive;
      }
      if After(now, coupon.coupon.endDate, coupon.end) {
        return Expired;
      }
      if coupon.coupon.usageLimit > 0 && coupon.coupon.usedCount >= coupon.coupon.usageLimit {
        return LimitReached;
      }
      return Verdict.Valid(coupon.coupon);
    }
  }
}
