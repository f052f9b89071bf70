/** The recharge-code handlers: generating codes from an alphabet without
    look-alike characters, creating a batch of codes that do not clash
    with stored ones, listing codes by status, redeeming a code into the
    caller's balance, and deleting an unused code. The `recharge_codes`
    table is a sequence of rows in store order; lookups by code or id take
    the first matching row, as `result.data[0]` does. */
module RechargeRoutes {
  import opened Models
  import Helpers

  const AmountNotPositive := "充值金额必须大于0"
  const QuantityOutOfRange := "充值码数量必须在1-100之间"
  const CodeNotFound := "充值码不存在"
  const CodeAlreadyUsed := "充值码已被使用"
  const CodeExpired := "充值码已过期"
  const UsedCodeNotDeletable := "已使用的充值码无法删除"
  const RecordKind := "recharge_code"
  const RecordPrefix := "使用充值码: "
  const DefaultCodeLength := 16
  const MaxQuantity := 100

  // ---------------------------------------------------------------------
  // generate_recharge_code

  /** `s.replace(c, '')`. */
  function RemoveChar(s: string, c: char): (r: string)
    ensures |r| <= |s|
    ensures forall ch :: ch in r <==> ch in s && ch != c
  {
    if s == [] then []
    else if s[0] == c then RemoveChar(s[1..], c)
    else [s[0]] + RemoveChar(s[1..], c)
  }

  predicate Confusable(ch: char) { ch == '0' || ch == 'O' || ch == '1' || ch == 'I' }

  /** `ascii_uppercase + digits` with 0, O, 1 and I removed by four
      `replace` calls: exactly the upper-case letters and digits that are
      not confusable. */
  function RechargeAlphabet(): (r: string)
    ensures forall ch :: ch in r <==> ('A' <= ch <= 'Z' || '0' <= ch <= '9') && !Confusable(ch)
    ensures 'A' in r
  {
    RemoveChar(RemoveChar(RemoveChar(RemoveChar(Helpers.Uppercase() + Helpers.Digits(), '0'), 'O'), '1'), 'I')
  }

  /** A code as `generate_recharge_code` shapes it: `length` characters,
      each an upper-case letter or digit other than 0, O, 1 and I. */
  predicate CodeShape(code: string, length: nat) {
    && |code| == length
    && forall i :: 0 <= i < |code| ==> ('A' <= code[i] <= 'Z' || '0' <= code[i] <= '9') && !Confusable(code[i])
  }

  /** `generate_recharge_code(length)`: the `i`-th character is drawn by
      `pick(i)`; a non-positive length gives the empty code. */
  function GenerateRechargeCode(length: int, pick: nat -> nat): (r: string)
    ensures CodeShape(r, if length <= 0 then 0 else length)
  {
    Helpers.RandomString(RechargeAlphabet(), length, pick)
  }

  // ---------------------------------------------------------------------
  // Lookups

  predicate CodeInUse(rows: seq<RechargeCode>, code: string) {
    exists k :: 0 <= k < |rows| && rows[k].code == code
  }

  /** The position of the first row with `code`, as `.eq('code', code)` and `data[0]`. */
  function FirstWithCode(rows: seq<RechargeCode>, code: string): (r: Option<nat>)
    ensures r.None? <==> !CodeInUse(rows, code)
    ensures r.Some? ==> r.value < |rows| && rows[r.value].code == code
                        && forall k :: 0 <= k < r.value ==> rows[k].code != code
  {
    if rows == [] then None
    else if rows[0].code == code then Some(0)
    else
      var rest := FirstWithCode(rows[1..], code);
      if rest.None? then
        assert forall k :: 1 <= k < |rows| ==> rows[k] == rows[1..][k - 1];
        None
      else
        assert forall k :: 1 <= k <= rest.value ==> rows[k] == rows[1..][k - 1];
        Some(rest.value + 1)
  }

  /** The position of the first row with `id`. */
  function FirstWithId(rows: seq<RechargeCode>, id: CodeId): (r: Option<nat>)
    ensures r.None? <==> forall k :: 0 <= k < |rows| ==> rows[k].id != id
    ensures r.Some? ==> r.value < |rows| && rows[r.value].id == id
                        && forall k :: 0 <= k < r.value ==> rows[k].id != id
  {
    if rows == [] then None
    else if rows[0].id == id then Some(0)
    else
      var rest := FirstWithId(rows[1..], id);
      if rest.None? then
        assert forall k :: 1 <= k < |rows| ==> rows[k] == rows[1..][k - 1];
        None
      else
        assert forall k :: 1 <= k <= rest.value ==> rows[k] == rows[1..][k - 1];
        Some(rest.value + 1)
  }

  predicate DistinctCodes(rows: seq<RechargeCode>) {
    forall a, b :: 0 <= a < b < |rows| ==> rows[a].code != rows[b].code
  }

  predicate DistinctIds(rows: seq<RechargeCode>) {
    forall a, b :: 0 <= a < b < |rows| ==> rows[a].id != rows[b].id
  }

  // ---------------------------------------------------------------------
  // POST /recharge/codes

  /** A new code row as the handler inserts it. */
  predicate IssuedAs(c: RechargeCode, caller: User, amount: real, description: Option<string>,
                     expiresAt: Option<Time>, now: Time)
  {
    && c.amount == amount && c.description == description && c.expiresAt == expiresAt
    && c.createdBy == caller.id && c.createdAt == now && c.usedAt.None? && c.usedBy.None?
    && CodeShape(c.code, DefaultCodeLength)
  }

  /** The codes of `created` differ from every stored code and from each other. */
  predicate FreshBatch(rows: seq<RechargeCode>, created: seq<RechargeCode>) {
    && (forall k, m :: 0 <= k < |created| && 0 <= m < |rows| ==> created[k].code != rows[m].code)
    && (forall k, m :: 0 <= k < m < |created| ==> created[k].code != created[m].code)
  }

  /** The code a draw generates is already stored. */
  predicate DrawTaken(stored: seq<RechargeCode>, pick: nat -> nat) {
    CodeInUse(stored, GenerateRechargeCode(DefaultCodeLength, pick))
  }

  /** The `while True` loop of `create_recharge_codes`: draws codes, from
      draw `j` on, until one is not stored yet. None when the draws run out
      first; `next` is the first draw not consumed. */
  method DrawFreeCode(stored: seq<RechargeCode>, draws: seq<nat -> nat>, j: nat)
    returns (code: Option<string>, next: nat)
    requires j <= |draws|
    ensures j <= next <= |draws|
    ensures code.Some? ==> !CodeInUse(stored, code.value) && CodeShape(code.value, DefaultCodeLength)
                           && next >= 1 && code.value == GenerateRechargeCode(DefaultCodeLength, draws[next - 1])
    ensures code.None? ==> next == |draws|
    ensures forall i :: j <= i < next - 1 ==> DrawTaken(stored, draws[i])
  {
    next := j;
    while next < |draws|
      invariant j <= next <= |draws|
      invariant forall i :: j <= i < next ==> DrawTaken(stored, draws[i])
      decreases |draws| - next
    {
      var candidate := GenerateRechargeCode(DefaultCodeLength, draws[next]);
      if !CodeInUse(stored, candidate) {
        return Some(candidate), next + 1;
      }
      forall i | j <= i < next + 1 ensures DrawTaken(stored, draws[i]) {
        if i == next {
          assert DrawTaken(stored, draws[next]);
        }
      }
      next := next + 1;
    }
    code := None;
  }

  /** A code not among the stored rows nor the batch keeps the batch fresh. */
  lemma ExtendFreshBatch(rows: seq<RechargeCode>, created: seq<RechargeCode>, c: RechargeCode)
    requires FreshBatch(rows, created) && !CodeInUse(rows + created, c.code)
    ensures FreshBatch(rows, created + [c])
  {
    forall m | 0 <= m < |rows| ensures c.code != rows[m].code {
      assert (rows + created)[m] == rows[m];
    }
    forall k | 0 <= k < |created| ensures created[k].code != c.code {
      assert (rows + created)[|rows| + k] == created[k];
    }
  }

  /** `create_recharge_codes`. `draws` are the random choices behind the
      successive calls of `generate_recharge_code()`, consumed in order by
      the retry loops, and `ids` are the row keys the store assigns to the
      successive inserts. A drawn code is retried while it is already
      stored, including codes inserted earlier in the same batch. */
  method CreateRechargeCodes(rows: seq<RechargeCode>, caller: User, amount: real, quantity: int,
                             description: Option<string>, expiresAt: Option<Time>,
                             draws: seq<nat -> nat>, ids: nat -> CodeId, now: Time)
    returns (r: Reply<seq<RechargeCode>>, rows': seq<RechargeCode>)
    ensures amount <= 0.0 ==> r == HttpError(400, AmountNotPositive)
    ensures amount > 0.0 && (quantity <= 0 || quantity > MaxQuantity) ==> r == HttpError(400, QuantityOutOfRange)
    ensures r.Ok? <==> amount > 0.0 && 1 <= quantity <= MaxQuantity
    ensures r.HttpError? ==> rows' == rows
    ensures r.Ok? ==> && |r.value| <= quantity
                      && rows' == rows + r.value
                      && (forall k :: 0 <= k < |r.value| ==> IssuedAs(r.value[k], caller, amount, description, expiresAt, now))
                      && FreshBatch(rows, r.value)
    ensures r.Ok? && DistinctCodes(rows) ==> DistinctCodes(rows')
  {
    if amount <= 0.0 {
      return HttpError(400, AmountNotPositive), rows;
    }
    if quantity <= 0 || quantity > MaxQuantity {
      return HttpError(400, QuantityOutOfRange), rows;
    }
    var created: seq<RechargeCode> := [];
    var j := 0;
    var exhausted := false;
    while |created| < quantity && !exhausted
      invariant |created| <= quantity && j <= |draws|
      invariant forall k :: 0 <= k < |created| ==> IssuedAs(created[k], caller, amount, description, expiresAt, now)
      invariant FreshBatch(rows, created)
      decreases quantity - |created|, if exhausted then 0 else 1
    {
      var code;
      code, j := DrawFreeCode(rows + created, draws, j);
      if code.None? {
        exhausted := true;
      } else {
        var c := RechargeCode(ids(|created|), code.value, amount, description, expiresAt, caller.id, now, None, None);
        ExtendFreshBatch(rows, created, c);
        created := created + [c];
      }
    }
    rows' := rows + created;
    r := Ok(created);
    if DistinctCodes(rows) {
      AppendKeepsDistinct(rows, created);
    }
  }

  /** A fresh batch appended to a table with unique codes keeps them unique. */
  lemma AppendKeepsDistinct(rows: seq<RechargeCode>, created: seq<RechargeCode>)
    requires DistinctCodes(rows) && FreshBatch(rows, created)
    ensures DistinctCodes(rows + created)
  {
    var all := rows + created;
    forall a, b | 0 <= a < b < |all| ensures all[a].code != all[b].code {
      if b < |rows| {
      } else if a < |rows| {
        assert all[b] == created[b - |rows|];
      } else {
        assert all[a] == created[a - |rows|] && all[b] == created[b - |rows|];
      }
    }
  }

  // ---------------------------------------------------------------------
  // GET /recharge/codes

  /** The `status` query parameter: only "unused", "used" and "expired"
      filter; an empty, missing or other value lists every code. */
  datatype StatusFilter = AnyStatus | Unused | Used | ExpiredBefore

  function ParseStatusFilter(status: Option<string>): (f: StatusFilter)
    ensures f == Unused <==> status == Some("unused")
    ensures f == Used <==> status == Some("used")
    ensures f == ExpiredBefore <==> status == Some("expired")
  {
    if status.None? || status.value == "" then AnyStatus
    else if status.value == "unused" then Unused
    else if status.value == "used" then Used
    else if status.value == "expired" then ExpiredBefore
    else AnyStatus
  }

  /** A code without an expiry never counts as expired (`NULL < x` is not true). */
  predicate StatusMatches(c: RechargeCode, f: StatusFilter, now: Time) {
    match f
    case AnyStatus => true
    case Unused => c.usedAt.None?
    case Used => c.usedAt.Some?
    case ExpiredBefore => c.expiresAt.Some? && c.expiresAt.value < now
  }

  function FilterByStatus(rows: seq<RechargeCode>, f: StatusFilter, now: Time): (r: seq<RechargeCode>)
    ensures |r| <= |rows|
    ensures forall c :: c in r <==> c in rows && StatusMatches(c, f, now)
  {
    if rows == [] then []
    else
      var rest := FilterByStatus(rows[1..], f, now);
      if StatusMatches(rows[0], f, now) then [rows[0]] + rest else rest
  }

  /** The status filter keeps the store's order: filtering two runs of
      rows one after the other is filtering each and concatenating. */
  lemma {:induction false} FilterByStatusAppend(a: seq<RechargeCode>, b: seq<RechargeCode>, f: StatusFilter, now: Time)
    ensures FilterByStatus(a + b, f, now) == FilterByStatus(a, f, now) + FilterByStatus(b, f, now)
    decreases |a|
  {
    if a == [] {
      assert a + b == b;
    } else {
      assert (a + b)[0] == a[0];
      assert (a + b)[1..] == a[1..] + b;
      FilterByStatusAppend(a[1..], b, f, now);
    }
  }

  /** "unused" and "used" split the codes: every code is in exactly one of
      the two lists, so their lengths add up to the whole table; and a
      status the handler does not know lists every code. */
  lemma {:induction false} StatusPartition(rows: seq<RechargeCode>, other: string, now: Time)
    requires other != "unused" && other != "used" && other != "expired"
    ensures |FilterByStatus(rows, Unused, now)| + |FilterByStatus(rows, Used, now)| == |rows|
    ensures forall c :: c in rows ==> (c in FilterByStatus(rows, Unused, now) <==>
                                       c !in FilterByStatus(rows, Used, now))
    ensures FilterByStatus(rows, ParseStatusFilter(Some(other)), now) == rows
  {
    if rows != [] {
      StatusPartition(rows[1..], other, now);
      assert [rows[0]] + rows[1..] == rows;
    }
  }

  /** `get_recharge_codes`: `rows` is the table newest first; the count and
      the page apply the same status filter. */
  function GetRechargeCodes(rows: seq<RechargeCode>, page: int, pageSize: int, status: Option<string>, now: Time)
    : (r: Helpers.Page<RechargeCode>)
    requires page >= 1 && 1 <= pageSize <= 100
    ensures var matching := FilterByStatus(rows, ParseStatusFilter(status), now);
      var offset := Helpers.Offset(page, pageSize);
      && r.total == |matching|
      && r.totalPages == Helpers.CeilDiv(r.total, pageSize)
      && |r.items| <= pageSize
      && (offset >= r.total ==> r.items == [])
      && (offset < r.total ==> |r.items| == Helpers.Min(pageSize, r.total - offset))
      && (forall k :: 0 <= k < |r.items| ==> r.items[k] == matching[offset + k])
    ensures forall c :: c in r.items ==> c in rows && StatusMatches(c, ParseStatusFilter(status), now)
  {
    var matching := FilterByStatus(rows, ParseStatusFilter(status), now);
    var listing := Helpers.PageOf(matching, page, pageSize);
    assert forall c :: c in listing.items ==> c in rows && StatusMatches(c, ParseStatusFilter(status), now) by {
      forall c | c in listing.items ensures c in rows && StatusMatches(c, ParseStatusFilter(status), now) { assert c in matching; }
    }
    listing
  }

  // ---------------------------------------------------------------------
  // POST /recharge/use

  predicate Expired(c: RechargeCode, now: Time) {
    c.expiresAt.Some? && c.expiresAt.value < now
  }

  /** `update({'used_at': now, 'used_by': user}).eq('id', id)`: every row
      with that id is marked used; codes, ids and all other rows stay. */
  function MarkUsed(rows: seq<RechargeCode>, id: CodeId, user: UserId, now: Time): (r: seq<RechargeCode>)
    ensures |r| == |rows|
    ensures forall k :: 0 <= k < |rows| ==> r[k].code == rows[k].code && r[k].id == rows[k].id
    ensures forall k :: 0 <= k < |rows| && rows[k].id == id ==>
              r[k] == rows[k].(usedAt := Some(now), usedBy := Some(user))
    ensures forall k :: 0 <= k < |rows| && rows[k].id != id ==> r[k] == rows[k]
  {
    seq(|rows|, k requires 0 <= k < |rows| =>
      if rows[k].id == id then rows[k].(usedAt := Some(now), usedBy := Some(user)) else rows[k])
  }

  /** Marking keeps every code where it was, so a lookup by code finds the
      same row, and that row is now used. */
  lemma {:induction false} MarkUsedFindsUsedRow(rows: seq<RechargeCode>, code: string, user: UserId, now: Time)
    requires CodeInUse(rows, code)
    ensures var i := FirstWithCode(rows, code).value;
      var marked := MarkUsed(rows, rows[i].id, user, now);
      && FirstWithCode(marked, code) == Some(i)
      && marked[i].usedAt == Some(now) && marked[i].usedBy == Some(user)
  {
    var i := FirstWithCode(rows, code).value;
    var marked := MarkUsed(rows, rows[i].id, user, now);
    assert marked[i].code == code;
    assert forall k :: 0 <= k < i ==> marked[k].code == rows[k].code;
  }

  /** `use_recharge_code`. Refuses, in this order, an unknown code (404), a
      code already used (400) and an expired code (400). Otherwise it makes
      three writes: the code's rows are marked used by the caller, the
      caller's balance becomes their balance (none counting as 0) plus the
      code's amount, and one recharge record is appended. The answer
      carries the amount and the new balance. */
  method UseRechargeCode(rows: seq<RechargeCode>, users: map<UserId, User>, records: seq<RechargeRecord>,
                         caller: User, code: string, now: Time)
    returns (r: Reply<(real, real)>, rows': seq<RechargeCode>, users': map<UserId, User>,
             records': seq<RechargeRecord>)
    ensures !CodeInUse(rows, code) ==> r == HttpError(404, CodeNotFound)
    ensures CodeInUse(rows, code) && rows[FirstWithCode(rows, code).value].usedAt.Some? ==>
              r == HttpError(400, CodeAlreadyUsed)
    ensures CodeInUse(rows, code) && rows[FirstWithCode(rows, code).value].usedAt.None? &&
            Expired(rows[FirstWithCode(rows, code).value], now) ==>
              r == HttpError(400, CodeExpired)
    ensures r.Ok? <==> CodeInUse(rows, code) && rows[FirstWithCode(rows, code).value].usedAt.None? &&
                       !Expired(rows[FirstWithCode(rows, code).value], now)
    ensures r.HttpError? ==> rows' == rows && users' == users && records' == records
    ensures r.Ok? ==>
              var c := rows[FirstWithCode(rows, code).value];
              var balance := BalanceOrZero(caller.balance) + c.amount;
              && r.value == (c.amount, balance)
              && rows' == MarkUsed(rows, c.id, caller.id, now)
              && (caller.id in users ==>
                    users' == users[caller.id := users[caller.id].(balance := Some(balance), updatedAt := Some(now))])
              && (caller.id !in users ==> users' == users)
              && records' == records + [RechargeRecord(caller.id, c.amount, RecordKind, RecordPrefix + code, c.id, now)]
  {
    var found := FirstWithCode(rows, code);
    if found.None? {
      return HttpError(404, CodeNotFound), rows, users, records;
    }
    var c := rows[found.value];
    if c.usedAt.Some? {
      return HttpError(400, CodeAlreadyUsed), rows, users, records;
    }
    if c.expiresAt.Some? && c.expiresAt.value < now {
      return HttpError(400, CodeExpired), rows, users, records;
    }
    // 1. mark the code used
    rows' := MarkUsed(rows, c.id, caller.id, now);
    // 2. credit the balance
    var balance := BalanceOrZero(caller.balance) + c.amount;
    users' := users;
    if caller.id in users {
      users' := users[caller.id := users[caller.id].(balance := Some(balance), updatedAt := Some(now))];
    }
    // 3. record the recharge
    records' := records + [RechargeRecord(caller.id, c.amount, RecordKind, RecordPrefix + code, c.id, now)];
    r := Ok((c.amount, balance));
  }

  /** A code pays out once: redeeming the same code a second time, by the
      same or another user, is refused as already used and changes nothing. */
  method RedeemTwice(rows: seq<RechargeCode>, users: map<UserId, User>, records: seq<RechargeRecord>,
                     first: User, second: User, code: string, now: Time, later: Time)
    returns (r1: Reply<(real, real)>, r2: Reply<(real, real)>, records': seq<RechargeRecord>)
    ensures r1.Ok? ==> r2 == HttpError(400, CodeAlreadyUsed) && |records'| == |records| + 1
  {
    var rows1, users1, records1;
    r1, rows1, users1, records1 := UseRechargeCode(rows, users, records, first, code, now);
    var rows2, users2;
    r2, rows2, users2, records' := UseRechargeCode(rows1, users1, records1, second, code, later);
    if r1.Ok? {
      MarkUsedFindsUsedRow(rows, code, first.id, now);
    }
  }

  // ---------------------------------------------------------------------
  // DELETE /recharge/codes/{id}

  /** `.delete().eq('id', id)`: the rows whose id differs, in order. */
  function WithoutId(rows: seq<RechargeCode>, id: CodeId): (r: seq<RechargeCode>)
    ensures |r| <= |rows|
    ensures forall c :: c in r <==> c in rows && c.id != id
  {
    if rows == [] then []
    else
      var rest := WithoutId(rows[1..], id);
      if rows[0].id == id then rest else [rows[0]] + rest
  }

  /** The delete keeps the remaining rows in the store's order: deleting
      from two runs of rows one after the other is deleting from each and
      concatenating. */
  lemma {:induction false} WithoutIdAppend(a: seq<RechargeCode>, b: seq<RechargeCode>, id: CodeId)
    ensures WithoutId(a + b, id) == WithoutId(a, id) + WithoutId(b, id)
    decreases |a|
  {
    if a == [] {
      assert a + b == b;
    } else {
      assert (a + b)[0] == a[0];
      assert (a + b)[1..] == a[1..] + b;
      WithoutIdAppend(a[1..], b, id);
    }
  }

  /** `delete_recharge_code`: refuses an unknown id (404) and a used code
      (400); otherwise removes the rows with that id. With unique ids, a
      used code is never removed. */
  method DeleteRechargeCode(rows: seq<RechargeCode>, id: CodeId)
    returns (r: Reply<()>, rows': seq<RechargeCode>)
    ensures FirstWithId(rows, id).None? ==> r == HttpError(404, CodeNotFound)
    ensures FirstWithId(rows, id).Some? && rows[FirstWithId(rows, id).value].usedAt.Some? ==>
              r == HttpError(400, UsedCodeNotDeletable)
    ensures r.Ok? <==> FirstWithId(rows, id).Some? && rows[FirstWithId(rows, id).value].usedAt.None?
    ensures r.HttpError? ==> rows' == rows
    ensures r.Ok? ==> rows' == WithoutId(rows, id)
    ensures r.Ok? ==> forall c :: c in rows' <==> c in rows && c.id != id
    ensures r.Ok? && DistinctIds(rows) ==> forall c :: c in rows && c.usedAt.Some? ==> c in rows'
  {
    var found := FirstWithId(rows, id);
    if found.None? {
      return HttpError(404, CodeNotFound), rows;
    }
    if rows[found.value].usedAt.Some? {
      return HttpError(400, UsedCodeNotDeletable), rows;
    }
    rows' := WithoutId(rows, id);
    r := Ok(());
    forall c | c in rows && c.usedAt.Some? && DistinctIds(rows) ensures c in rows' {
      UsedRowHasOtherId(rows, found.value, c);
    }
  }

  /** With unique ids, a used row has a different id than an unused one. */
  lemma UsedRowHasOtherId(rows: seq<RechargeCode>, i: nat, c: RechargeCode)
    requires DistinctIds(rows) && i < |rows| && rows[i].usedAt.None?
    requires c in rows && c.usedAt.Some?
    ensures c.id != rows[i].id
  {
    var k :| 0 <= k < |rows| && rows[k] == c;
    assert k != i;
  }
}
