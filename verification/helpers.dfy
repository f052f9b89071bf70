/** General-purpose helpers of the backend: Python's integer division and
    slicing as the helpers rely on them, duration formatting, list
    pagination, masking, truncation, random codes and keys, and the
    dictionary utilities. Randomness is a `pick` function from draw
    position to an arbitrary index. */
module Helpers {
  import opened Models

  // ---------------------------------------------------------------------
  // Python integer and slice semantics

  /** Python's `a // b` (rounds toward negative infinity). */
  function FloorDiv(a: int, b: int): (q: int)
    requires b != 0
    ensures b > 0 ==> q * b <= a < q * b + b
    ensures b < 0 ==> q * b >= a > q * b + b
  {
    if b > 0 then a / b else (-a) / (-b)
  }

  /** Python's `(a + b - 1) // b` for positive `b`: the number of pages. */
  function CeilDiv(a: nat, b: int): (q: nat)
    requires b >= 1
    ensures (q - 1) * b < a <= q * b
    ensures a == 0 <==> q == 0
  {
    FloorDiv(a + b - 1, b)
  }

  /** A slice bound as Python normalises it: negative counts from the end,
      and the result is clamped into `0..n`. */
  function SliceBound(i: int, n: nat): (k: nat)
    ensures k <= n
    ensures 0 <= i <= n ==> k == i
    ensures i > n ==> k == n
  {
    if i < 0 then (if i + n < 0 then 0 else i + n) else if i > n then n else i
  }

  /** `s[i:j]`. */
  function PySlice<T>(s: seq<T>, i: int, j: int): (r: seq<T>)
    ensures 0 <= i <= j <= |s| ==> r == s[i..j]
    ensures |r| <= |s|
  {
    var a, b := SliceBound(i, |s|), SliceBound(j, |s|);
    if a < b then s[a..b] else []
  }

  /** `s * k` for a string `s`: empty when `k <= 0`. */
  function Repeat(s: string, k: int): (r: string)
    ensures |r| == (if k <= 0 then 0 else k * |s|)
    ensures |s| == 1 ==> forall i :: 0 <= i < |r| ==> r[i] == s[0]
    decreases k
  {
    if k <= 0 then "" else s + Repeat(s, k - 1)
  }

  // ---------------------------------------------------------------------
  // format_duration

  /** Python's `str(n)` for an integer. */
  function DecimalString(n: int): (s: string)
    ensures |s| >= 1
    decreases if n < 0 then 1 - n else n
  {
    if n < 0 then "-" + DecimalString(-n)
    else if n < 10 then [DigitChar(n)]
    else DecimalString(n / 10) + [DigitChar(n % 10)]
  }

  function DigitChar(d: int): char
    requires 0 <= d < 10
  {
    "0123456789"[d]
  }

  /** The number a string of decimal digits denotes, most significant
      digit first. */
  function DigitsValue(s: string): int {
    if s == [] then 0 else DigitsValue(s[..|s| - 1]) * 10 + (s[|s| - 1] as int - '0' as int)
  }

  predicate AllDigits(s: string) {
    forall i :: 0 <= i < |s| ==> '0' <= s[i] <= '9'
  }

  lemma DigitCharValue(d: int)
    requires 0 <= d < 10
    ensures '0' <= DigitChar(d) <= '9' && DigitChar(d) as int - '0' as int == d
  {
  }

  /** `str(n)` denotes `n`: for `n >= 0` it is decimal digits without a
      leading zero (except "0" itself) whose value is `n`; for a negative
      `n` it is "-" followed by `str(-n)`. */
  lemma {:induction false} DecimalStringDenotes(n: int)
    ensures n >= 0 ==> AllDigits(DecimalString(n)) && DigitsValue(DecimalString(n)) == n
    ensures n > 0 ==> DecimalString(n)[0] != '0'
    ensures n < 0 ==> DecimalString(n) == "-" + DecimalString(-n)
    decreases if n < 0 then 1 - n else n
  {
    var s := DecimalString(n);
    if n < 0 {
    } else if n < 10 {
      DigitCharValue(n);
      assert s[..|s| - 1] == [];
    } else {
      var q := DecimalString(n / 10);
      DecimalStringDenotes(n / 10);
      DigitCharValue(n % 10);
      assert s == q + [DigitChar(n % 10)];
      assert s[..|s| - 1] == q;
      assert s[0] == q[0];
    }
  }

  /** The branch `format_duration` takes and the numbers it prints. */
  datatype Duration = Secs(s: int) | MinSecs(m: int, s: int) | HourMins(h: int, m: int)

  function DurationParts(seconds: int): (d: Duration)
    ensures seconds < 60 <==> d.Secs?
    ensures d.Secs? ==> d.s == seconds
    ensures d.MinSecs? ==> 1 <= d.m < 60 && 0 <= d.s < 60 && d.m * 60 + d.s == seconds
    ensures d.HourMins? ==> d.h >= 1 && 0 <= d.m < 60
                            && d.h * 3600 + d.m * 60 <= seconds < d.h * 3600 + d.m * 60 + 60
  {
    if seconds < 60 then Secs(seconds)
    else if seconds < 3600 then MinSecs(FloorDiv(seconds, 60), seconds % 60)
    else HourMins(FloorDiv(seconds, 3600), FloorDiv(seconds % 3600, 60))
  }

  /** `format_duration`: "<s>秒", "<m>分<s>秒" or "<h>小时<m>分钟". */
  function FormatDuration(seconds: int): (r: string)
    ensures seconds < 60 ==> r == DecimalString(seconds) + "秒"
    ensures 60 <= seconds < 3600 ==>
              r == DecimalString(seconds / 60) + "分" + DecimalString(seconds % 60) + "秒"
    ensures seconds >= 3600 ==>
              r == DecimalString(seconds / 3600) + "小时" + DecimalString(seconds % 3600 / 60) + "分钟"
  {
    match DurationParts(seconds)
    case Secs(s) => DecimalString(s) + "秒"
    case MinSecs(m, s) => DecimalString(m) + "分" + DecimalString(s) + "秒"
    case HourMins(h, m) => DecimalString(h) + "小时" + DecimalString(m) + "分钟"
  }

  // ---------------------------------------------------------------------
  // paginate_results

  datatype Pagination = Pagination(
    currentPage: int, pageSize: int, totalItems: nat, totalPages: int, hasNext: bool, hasPrev: bool)

  datatype Paginated<T> = Paginated(items: seq<T>, pagination: Pagination)

  /** `paginate_results`. A zero page size makes the page count divide by
      zero, which raises. */
  function PaginateResults<T>(items: seq<T>, page: int, pageSize: int): (r: Outcome<Paginated<T>>)
    ensures r.Raised? <==> pageSize == 0
    ensures r.Returned? ==> (&& r.value.pagination.totalItems == |items|
                             && r.value.pagination.hasPrev == (page > 1)
                             && r.value.pagination.hasNext == (page < r.value.pagination.totalPages))
    ensures pageSize >= 1 ==> r.Returned? && r.value.pagination.totalPages == CeilDiv(|items|, pageSize)
    ensures pageSize >= 1 && page >= 1 ==>
              var start := (page - 1) * pageSize;
              && |r.value.items| == (if start >= |items| then 0 else Min(pageSize, |items| - start))
              && forall k :: 0 <= k < |r.value.items| ==> r.value.items[k] == items[start + k]
  {
    if pageSize == 0 then Raised("integer division or modulo by zero")
    else
      var totalPages := FloorDiv(|items| + pageSize - 1, pageSize);
      var start := (page - 1) * pageSize;
      if pageSize >= 1 && page >= 1 then
        MulMono(0, page - 1, pageSize);
        SliceWindow(items, start, pageSize);
        Returned(Paginated(PySlice(items, start, start + pageSize),
                           Pagination(page, pageSize, |items|, totalPages, page < totalPages, page > 1)))
      else
        Returned(Paginated(PySlice(items, start, start + pageSize),
                           Pagination(page, pageSize, |items|, totalPages, page < totalPages, page > 1)))
  }

  /** A window of `len` items from a non-negative `start`. */
  lemma SliceWindow<T>(items: seq<T>, start: int, len: int)
    requires start >= 0 && len >= 1
    ensures var w := PySlice(items, start, start + len);
      && |w| == (if start >= |items| then 0 else Min(len, |items| - start))
      && forall k :: 0 <= k < |w| ==> w[k] == items[start + k]
  {
  }

  function Min(a: int, b: int): int {
    if a <= b then a else b
  }

  /** For a positive page and page size, a next page exists exactly when
      items remain after this page, and a page past the last is empty. */
  lemma {:induction false} PaginationNextMeansMore<T>(items: seq<T>, page: int, pageSize: int)
    requires page >= 1 && pageSize >= 1
    ensures PaginateResults(items, page, pageSize).value.pagination.hasNext <==> page * pageSize < |items|
    ensures page > CeilDiv(|items|, pageSize) ==> PaginateResults(items, page, pageSize).value.items == []
  {
    var q := CeilDiv(|items|, pageSize);
    if page < q {
      assert page <= q - 1;
      assert page * pageSize <= (q - 1) * pageSize by {
        MulMono(page, q - 1, pageSize);
      }
    } else {
      MulMono(q, page, pageSize);
    }
    if page > q {
      MulMono(q, page - 1, pageSize);
    }
  }

  lemma MulMono(a: int, b: int, c: int)
    requires a <= b && c >= 0
    ensures a * c <= b * c
  {
  }

  /** The store's `range(offset, offset + size - 1)`: the rows at the
      inclusive positions `offset .. offset + size - 1` that exist. */
  function PageWindow<T>(rows: seq<T>, offset: int, size: int): (w: seq<T>)
    requires offset >= 0 && size >= 1
    ensures |w| <= size
    ensures offset >= |rows| ==> w == []
    ensures offset < |rows| ==> |w| == Min(size, |rows| - offset)
    ensures forall k :: 0 <= k < |w| ==> w[k] == rows[offset + k]
    ensures forall x :: x in w ==> x in rows
  {
    SliceWindow(rows, offset, size);
    PySlice(rows, offset, offset + size - 1 + 1)
  }

  /** A listing as the paginated handlers answer it. */
  datatype Page<T> = Page(items: seq<T>, total: nat, page: int, pageSize: int, totalPages: nat)

  /** `(page - 1) * page_size`, known to be non-negative. */
  function Offset(page: int, pageSize: int): (offset: nat)
    requires page >= 1 && pageSize >= 1
    ensures offset == (page - 1) * pageSize
  {
    MulMono(0, page - 1, pageSize);
    (page - 1) * pageSize
  }

  /** The paginated answer over the rows that pass a handler's filters:
      `total` is the filtered count, `total_pages` is
      `(total + page_size - 1) // page_size`, and the items are the store's
      `range(offset, offset + page_size - 1)` with
      `offset = (page - 1) * page_size`. */
  function PageOf<T>(matching: seq<T>, page: int, pageSize: int): (r: Page<T>)
    requires page >= 1 && pageSize >= 1
    ensures var offset := Offset(page, pageSize);
      && r.total == |matching| && r.page == page && r.pageSize == pageSize
      && r.totalPages == CeilDiv(r.total, pageSize)
      && |r.items| <= pageSize
      && (offset >= r.total ==> r.items == [])
      && (offset < r.total ==> |r.items| == Min(pageSize, r.total - offset))
      && (forall k :: 0 <= k < |r.items| ==> r.items[k] == matching[offset + k])
    ensures forall x :: x in r.items ==> x in matching
  {
    var items := PageWindow(matching, Offset(page, pageSize), pageSize);
    Page(items, |matching|, page, pageSize, CeilDiv(|matching|, pageSize))
  }

  // ---------------------------------------------------------------------
  // mask_sensitive_data and truncate_string

  /** `data[:k]`. */
  function PyPrefix(data: string, k: int): string {
    PySlice(data, 0, k)
  }

  /** `mask_sensitive_data`. */
  function MaskSensitiveData(data: string, maskChar: string, visibleChars: int): (r: string)
    ensures |data| <= visibleChars ==> r == Repeat(maskChar, |data|)
    ensures 0 <= visibleChars < |data| ==> r == data[..visibleChars] + Repeat(maskChar, |data| - visibleChars)
  {
    if |data| <= visibleChars then Repeat(maskChar, |data|)
    else PyPrefix(data, visibleChars) + Repeat(maskChar, |data| - visibleChars)
  }

  /** With a one-character mask and a non-negative count, masking keeps
      the length, shows exactly the first `visibleChars` characters of a
      longer value, and hides every other position. */
  lemma {:induction false} MaskKeepsLength(data: string, maskChar: string, visibleChars: int)
    requires |maskChar| == 1 && visibleChars >= 0
    ensures var r := MaskSensitiveData(data, maskChar, visibleChars);
      && |r| == |data|
      && (forall i :: 0 <= i < |r| && (i >= visibleChars || |data| <= visibleChars) ==> r[i] == maskChar[0])
      && (|data| > visibleChars ==> r[..visibleChars] == data[..visibleChars])
  {
    var r := MaskSensitiveData(data, maskChar, visibleChars);
    if |data| > visibleChars {
      var tail := Repeat(maskChar, |data| - visibleChars);
      assert r == data[..visibleChars] + tail;
      forall i | 0 <= i < |r| && i >= visibleChars
        ensures r[i] == maskChar[0]
      {
        assert r[i] == tail[i - visibleChars];
      }
    }
  }

  /** `truncate_string`. */
  function TruncateString(text: string, maxLength: int, suffix: string): (r: string)
    ensures |text| <= maxLength ==> r == text
  {
    if |text| <= maxLength then text
    else PyPrefix(text, maxLength - |suffix|) + suffix
  }

  /** A truncated string has exactly the allowed length, ends with the
      suffix, and starts with the text it cut, as long as the suffix fits. */
  lemma {:induction false} TruncateFits(text: string, maxLength: int, suffix: string)
    requires |text| > maxLength >= |suffix|
    ensures var r := TruncateString(text, maxLength, suffix);
      && |r| == maxLength
      && r[maxLength - |suffix|..] == suffix
      && r[..maxLength - |suffix|] == text[..maxLength - |suffix|]
  {
    var k := maxLength - |suffix|;
    assert PyPrefix(text, k) == text[..k];
  }

  // ---------------------------------------------------------------------
  // Random strings, API keys and the grouped recharge code

  /** The characters `lo` to `hi` in code-point order. */
  function CharRange(lo: char, hi: char): (r: string)
    requires lo <= hi && hi as int < 0xD800
    ensures |r| == hi as int - lo as int + 1
    ensures forall i :: 0 <= i < |r| ==> r[i] as int == lo as int + i
    ensures forall ch :: ch in r <==> lo <= ch <= hi
  {
    var n := hi as int - lo as int + 1;
    var r := seq(n, i requires 0 <= i < n => (lo as int + i) as char);
    CharRangeMembers(r, lo, hi);
    r
  }

  lemma {:induction false} CharRangeMembers(r: string, lo: char, hi: char)
    requires lo <= hi && |r| == hi as int - lo as int + 1
    requires forall i :: 0 <= i < |r| ==> r[i] as int == lo as int + i
    ensures forall ch :: ch in r <==> lo <= ch <= hi
  {
    forall ch | lo <= ch <= hi ensures ch in r {
      assert r[ch as int - lo as int] == ch;
    }
  }

  /** `string.ascii_uppercase`, `string.digits` and `string.ascii_letters`. */
  function Uppercase(): string { CharRange('A', 'Z') }
  function Digits(): string { CharRange('0', '9') }
  function Letters(): string { CharRange('a', 'z') + CharRange('A', 'Z') }

  /** `length` characters, the `i`-th chosen from `alphabet` by draw `pick(i)`;
      no characters for a non-positive length (`range` is empty). */
  function RandomString(alphabet: string, length: int, pick: nat -> nat): (r: string)
    requires |alphabet| > 0
    ensures |r| == (if length <= 0 then 0 else length)
    ensures forall i :: 0 <= i < |r| ==> r[i] in alphabet
  {
    var n := if length <= 0 then 0 else length;
    seq(n, i requires 0 <= i < n => alphabet[pick(i) % |alphabet|])
  }

  /** `generate_random_string`: ASCII letters and digits. */
  function GenerateRandomString(length: int, pick: nat -> nat): (r: string)
    ensures |r| == (if length <= 0 then 0 else length)
    ensures forall i :: 0 <= i < |r| ==> r[i] in Letters() + Digits()
  {
    RandomString(Letters() + Digits(), length, pick)
  }

  /** `generate_api_key`: the `owl_` prefix and 40 random letters or digits. */
  function GenerateApiKey(pick: nat -> nat): (r: string)
    ensures |r| == 44 && r[..4] == "owl_"
    ensures forall i :: 4 <= i < 44 ==> r[i] in Letters() + Digits()
  {
    "owl_" + GenerateRandomString(40, pick)
  }

  /** `'-'.join(code[i:i+4] for i in range(0, len(code), 4))`. */
  function Grouped(code: string): (r: string)
    ensures |code| <= 4 ==> r == code
    decreases |code|
  {
    if |code| <= 4 then code else code[..4] + "-" + Grouped(code[4..])
  }

  function RemoveDashes(s: string): (r: string)
    ensures |r| <= |s|
  {
    if s == [] then [] else (if s[0] == '-' then [] else [s[0]]) + RemoveDashes(s[1..])
  }

  lemma {:induction false} RemoveDashesAppend(a: string, b: string)
    ensures RemoveDashes(a + b) == RemoveDashes(a) + RemoveDashes(b)
    decreases |a|
  {
    if a == [] {
      assert a + b == b;
    } else {
      assert (a + b)[0] == a[0];
      assert (a + b)[1..] == a[1..] + b;
      RemoveDashesAppend(a[1..], b);
    }
  }

  lemma {:induction false} RemoveDashesNoDash(s: string)
    requires '-' !in s
    ensures RemoveDashes(s) == s
    decreases |s|
  {
    if s != [] {
      RemoveDashesNoDash(s[1..]);
    }
  }

  /** Removing the separators from a grouped code gives back the code. */
  lemma {:induction false} GroupedRoundTrip(code: string)
    requires '-' !in code
    ensures RemoveDashes(Grouped(code)) == code
    decreases |code|
  {
    if |code| <= 4 {
      RemoveDashesNoDash(code);
    } else {
      var head, rest := code[..4], Grouped(code[4..]);
      assert '-' !in code[4..] by {
        forall c | c in code[4..] ensures c != '-' { }
      }
      GroupedRoundTrip(code[4..]);
      assert '-' !in head;
      RemoveDashesNoDash(head);
      assert RemoveDashes("-") == [];
      RemoveDashesAppend(head, "-");
      RemoveDashesAppend(head + "-", rest);
      assert Grouped(code) == (head + "-") + rest;
      assert code == head + code[4..];
    }
  }

  /** `generate_recharge_code` of helpers (not the one the recharge routes use). */
  function GenerateGroupedCode(length: int, pick: nat -> nat): (r: string)
    ensures RemoveDashes(r) == RandomString(Uppercase() + Digits(), length, pick)
  {
    var code := RandomString(Uppercase() + Digits(), length, pick);
    assert '-' !in Uppercase() + Digits();
    GroupedRoundTrip(code);
    Grouped(code)
  }

  /** Sixteen characters fall into four groups of four. */
  lemma {:induction false} GroupedSixteen(code: string)
    requires |code| == 16
    ensures var r := Grouped(code);
      && |r| == 19
      && r[4] == '-' && r[9] == '-' && r[14] == '-'
      && r == code[..4] + "-" + code[4..8] + "-" + code[8..12] + "-" + code[12..]
  {
    var c1, c2, c3 := code[4..], code[8..], code[12..];
    assert c1[4..] == c2 && c2[4..] == c3 && c1[..4] == code[4..8] && c2[..4] == code[8..12];
    assert Grouped(c3) == c3;
    assert Grouped(c2) == code[8..12] + "-" + c3;
    assert Grouped(c1) == code[4..8] + "-" + Grouped(c2);
    assert Grouped(code) == code[..4] + "-" + Grouped(c1);
  }

  /** With the default length the code is four groups of four characters
      from upper-case letters and digits, separated by dashes, and removing
      the dashes gives back the 16 drawn characters. */
  lemma {:induction false} DefaultGroupedCodeShape(pick: nat -> nat)
    ensures var code := RandomString(Uppercase() + Digits(), 16, pick);
      var r := GenerateGroupedCode(16, pick);
      && |r| == 19
      && r[4] == '-' && r[9] == '-' && r[14] == '-'
      && r == code[..4] + "-" + code[4..8] + "-" + code[8..12] + "-" + code[12..]
      && RemoveDashes(r) == code
  {
    var code := RandomString(Uppercase() + Digits(), 16, pick);
    GroupedSixteen(code);
  }

  // ---------------------------------------------------------------------
  // Dictionary helpers

  /** `filter_dict_keys`. */
  function FilterDictKeys<V>(data: map<string, V>, allowedKeys: seq<string>): (r: map<string, V>)
    ensures r.Keys == data.Keys * set k | k in allowedKeys
    ensures forall k :: k in r ==> r[k] == data[k]
  {
    map k | k in data && k in allowedKeys :: data[k]
  }

  /** An argument of `merge_dicts`: a dictionary or any other value. */
  datatype MergeArg<V> = Dict(entries: map<string, V>) | NotDict

  /** What `merge_dicts` builds from its first `args`: each dictionary
      updates the result in turn. */
  function MergeAll<V>(args: seq<MergeArg<V>>): map<string, V>
    decreases |args|
  {
    if args == [] then map[]
    else
      var front := MergeAll(args[..|args| - 1]);
      match args[|args| - 1]
      case Dict(m) => front + m
      case NotDict => front
  }

  /** `merge_dicts`. */
  method MergeDicts<V>(args: seq<MergeArg<V>>) returns (result: map<string, V>)
    ensures result == MergeAll(args)
    ensures forall k :: k in result <==> exists i :: 0 <= i < |args| && args[i].Dict? && k in args[i].entries
    ensures forall k, i :: k in result && LastHolder(args, k, i) ==> result[k] == args[i].entries[k]
  {
    result := map[];
    var i := 0;
    while i < |args|
      invariant 0 <= i <= |args|
      invariant result == MergeAll(args[..i])
    {
      assert args[..i + 1][..i] == args[..i];
      if args[i].Dict? {
        result := result + args[i].entries;
      }
      i := i + 1;
    }
    assert args[..i] == args;
    MergeAllLastWins(args);
  }

  /** `args[i]` is the last dictionary argument holding `k`. */
  predicate LastHolder<V>(args: seq<MergeArg<V>>, k: string, i: int) {
    && 0 <= i < |args| && args[i].Dict? && k in args[i].entries
    && forall j :: i < j < |args| && args[j].Dict? ==> k !in args[j].entries
  }

  /** A key is in the merge exactly when some dictionary argument has it,
      and its value comes from the last dictionary that has it. */
  lemma {:induction false} MergeAllLastWins<V>(args: seq<MergeArg<V>>)
    ensures forall k :: k in MergeAll(args) <==> exists i :: 0 <= i < |args| && args[i].Dict? && k in args[i].entries
    ensures forall k, i :: k in MergeAll(args) && LastHolder(args, k, i) ==> MergeAll(args)[k] == args[i].entries[k]
    decreases |args|
  {
    if args != [] {
      var n := |args| - 1;
      var front := args[..n];
      MergeAllLastWins(front);
      forall k, i | k in MergeAll(args) && LastHolder(args, k, i)
        ensures MergeAll(args)[k] == args[i].entries[k]
      {
        if i < n {
          assert LastHolder(front, k, i);
        }
      }
      forall k | exists i :: 0 <= i < |args| && args[i].Dict? && k in args[i].entries
        ensures k in MergeAll(args)
      {
        var i :| 0 <= i < |args| && args[i].Dict? && k in args[i].entries;
        if i < n {
          assert front[i] == args[i];
        }
      }
      forall k | k in MergeAll(args)
        ensures exists i :: 0 <= i < |args| && args[i].Dict? && k in args[i].entries
      {
        if k !in MergeAll(front) {
          assert args[n].Dict? && k in args[n].entries;
        } else {
          var i :| 0 <= i < |front| && front[i].Dict? && k in front[i].entries;
          assert args[i] == front[i];
        }
      }
    }
  }

  // ---------------------------------------------------------------------
  // get_client_ip

  /** The characters Python's `str.isspace` accepts, which are the ones
      `str.strip()` removes: the ASCII controls tab to carriage return, the
      four information separators, space, and the Unicode separators. */
  predicate IsSpace(c: char) {
    || '\t' <= c <= '\r'
    || '\U{1C}' <= c <= ' '
    || c == '\U{85}' || c == '\U{A0}' || c == '\U{1680}'
    || '\U{2000}' <= c <= '\U{200A}'
    || c == '\U{2028}' || c == '\U{2029}' || c == '\U{202F}' || c == '\U{205F}' || c == '\U{3000}'
  }

  /** The number of whitespace characters `s` starts with. */
  function LeadingSpaces(s: string): (n: nat)
    ensures n <= |s|
    ensures forall k :: 0 <= k < n ==> IsSpace(s[k])
    ensures n < |s| ==> !IsSpace(s[n])
    decreases |s|
  {
    if s != [] && IsSpace(s[0]) then
      var n := LeadingSpaces(s[1..]);
      assert forall k :: 1 <= k < n + 1 ==> s[k] == s[1..][k - 1];
      n + 1
    else 0
  }

  /** The length of `s` without the whitespace it ends with. */
  function TrailingStart(s: string): (m: nat)
    ensures m <= |s|
    ensures forall k :: m <= k < |s| ==> IsSpace(s[k])
    ensures m > 0 ==> !IsSpace(s[m - 1])
    decreases |s|
  {
    if s != [] && IsSpace(s[|s| - 1]) then TrailingStart(s[..|s| - 1]) else |s|
  }

  /** `str.strip()`: the part of `s` between its leading and its trailing
      whitespace. */
  function Strip(s: string): (r: string)
    ensures |r| <= |s|
    ensures r != [] ==> !IsSpace(r[0]) && !IsSpace(r[|r| - 1])
    ensures exists i, j :: 0 <= i <= j <= |s| && r == s[i..j]
              && (forall k :: 0 <= k < i ==> IsSpace(s[k]))
              && (forall k :: j <= k < |s| ==> IsSpace(s[k]))
  {
    var i := LeadingSpaces(s);
    var rest := s[i..];
    var m := TrailingStart(rest);
    assert forall k :: i + m <= k < |s| ==> s[k] == rest[k - i];
    assert rest[..m] == s[i..i + m];
    s[i..i + m]
  }

  /** `s.split(',')[0]`: everything before the first comma. */
  function FirstField(s: string): (r: string)
    ensures ',' !in r
    ensures r <= s
    ensures |r| < |s| ==> s[|r|] == ','
  {
    if s == [] || s[0] == ',' then [] else [s[0]] + FirstField(s[1..])
  }

  /** `get_client_ip`: a header that is absent is None; an empty header
      counts as absent. */
  function GetClientIp(forwardedFor: Option<string>, realIp: Option<string>, clientHost: string): (r: string)
    ensures forwardedFor.Some? && forwardedFor.value != [] ==>
              r == Strip(FirstField(forwardedFor.value)) && ',' !in r
    ensures (forwardedFor.None? || forwardedFor.value == []) && realIp.Some? && realIp.value != [] ==>
              r == realIp.value
    ensures (forwardedFor.None? || forwardedFor.value == []) && (realIp.None? || realIp.value == []) ==>
              r == clientHost
  {
    if forwardedFor.Some? && forwardedFor.value != [] then
      var f := FirstField(forwardedFor.value);
      var r := Strip(f);
      var i, j :| 0 <= i <= j <= |f| && r == f[i..j];
      assert forall c :: c in r ==> c in f;
      r
    else if realIp.Some? && realIp.value != [] then realIp.value
    else clientHost
  }
}
