/**
 * The integer and routing logic of the REST API template
 * (claude/skills/api-design-principles/assets/rest-api-template.rs): page counting,
 * the uniform response envelope, the mapping from application errors to HTTP status
 * codes, and the parameter validation and page slicing of the user handlers.
 */
module RestApi {
  import opened Wrappers
  import opened Values

  const I64_MIN: int := -0x8000_0000_0000_0000
  const I64_MAX: int := 0x7fff_ffff_ffff_ffff
  const TWO_64: int := 0x1_0000_0000_0000_0000

  predicate IsI64(x: int) {
    I64_MIN <= x <= I64_MAX
  }

  /** Rust's `/` on signed integers truncates toward zero. */
  function TruncDiv(a: int, b: int): (q: int)
    requires b != 0
    ensures a >= 0 && b > 0 ==> q == a / b
  {
    var n := if a < 0 then -a else a;
    var d := if b < 0 then -b else b;
    if (a < 0) != (b < 0) then -(n / d) else n / d
  }

  // ---------- data model ----------

  datatype UserStatus = Active | Inactive | Suspended

  datatype User = User(id: string, email: string, name: string, status: UserStatus,
                       createdAt: string, updatedAt: string)

  /** A partial update: each field is optional. */
  datatype UserUpdate = UserUpdate(email: Option<string>, name: Option<string>, status: Option<UserStatus>)

  const FIXED_TIMESTAMP: string := "2024-01-01T00:00:00Z"
  const DEFAULT_EMAIL: string := "user@example.com"
  const DEFAULT_NAME: string := "User Name"

  // ---------- pagination ----------

  datatype PaginatedResponse<T> = PaginatedResponse(items: seq<T>, total: int, page: int, pageSize: int, pages: int)
  {
    predicate HasNext() {
      page < pages
    }

    predicate HasPrev() {
      page > 1
    }
  }

  /** `p` is the number of pages of size `size` that `total` items fill: the ceiling of total/size. */
  predicate IsPageCount(p: int, total: int, size: int) {
    p >= 0 && p * size >= total && (p == 0 || (p - 1) * size < total)
  }

  /**
   * `PaginatedResponse::new`, with a release build's arithmetic: `total + page_size - 1`
   * wraps around in i64. The division still panics on a zero divisor and on
   * `i64::MIN / -1`, so callers must avoid both.
   */
  function NewPaginated<T>(items: seq<T>, total: int, page: int, pageSize: int): (r: PaginatedResponse<T>)
    requires IsI64(total) && IsI64(pageSize) && pageSize != 0
    requires !(pageSize == -1 && WrapI64(total + pageSize - 1) == I64_MIN)
    ensures r.items == items && r.total == total && r.page == page && r.pageSize == pageSize
    ensures IsI64(r.pages)
    ensures total >= 0 && pageSize >= 1 && IsI64(total + pageSize - 1) ==> IsPageCount(r.pages, total, pageSize)
  {
    var n := WrapI64(total + pageSize - 1);
    TruncDivInRange(n, pageSize);
    var r := PaginatedResponse(items, total, page, pageSize, TruncDiv(n, pageSize));
    if total >= 0 && pageSize >= 1 && IsI64(total + pageSize - 1) then CeilingDivision(total, pageSize); r else r
  }

  /** Truncating division of two i64 values stays in i64, except `i64::MIN / -1`. */
  lemma TruncDivInRange(a: int, b: int)
    requires IsI64(a) && IsI64(b) && b != 0 && !(b == -1 && a == I64_MIN)
    ensures IsI64(TruncDiv(a, b))
  {
    var n := if a < 0 then -a else a;
    var d := if b < 0 then -b else b;
    assert n / d <= n by { DivAtMost(n, d); }
    if d >= 2 {
      assert n / d <= n / 2 by { DivAntitone(n, 2, d); }
    }
  }

  lemma DivAtMost(n: nat, d: int)
    requires d >= 1
    ensures 0 <= n / d <= n
  {
    MulMonotone(1, d, n / d);
  }

  lemma DivAntitone(n: nat, c: int, d: int)
    requires 1 <= c <= d
    ensures n / d <= n / c
  {
    var q := n / d;
    MulMonotone(c, d, q);
    assert q * c <= q * d <= n;
    if n / c < q {
      assert n < (n / c + 1) * c;
      MulMonotone(n / c + 1, q, c);
    }
  }

  lemma CeilingDivision(total: int, size: int)
    requires total >= 0 && size >= 1
    ensures IsPageCount((total + size - 1) / size, total, size)
  {
    var n := total + size - 1;
    var q := n / size;
    assert n == q * size + n % size && 0 <= n % size < size;
    assert (q - 1) * size == q * size - size;
  }

  lemma MulMonotone(a: int, b: int, c: int)
    requires a <= b && c >= 0
    ensures a * c <= b * c
  {
    assert b * c - a * c == (b - a) * c;
  }

  /** A later page exists exactly when the items up to this page do not reach the total. */
  lemma HasNextIffMoreItems<T>(items: seq<T>, total: int, page: int, pageSize: int)
    requires total >= 0 && 1 <= pageSize && page >= 1
    requires IsI64(total) && IsI64(pageSize) && IsI64(total + pageSize - 1)
    ensures NewPaginated(items, total, page, pageSize).HasNext() <==> page * pageSize < total
  {
    var r := NewPaginated(items, total, page, pageSize);
    if r.HasNext() {
      MulMonotone(page, r.pages - 1, pageSize);
    } else {
      MulMonotone(r.pages, page, pageSize);
    }
  }

  /** An earlier page exists exactly when this page does not start at item 0. */
  lemma HasPrevIffNotFirst<T>(items: seq<T>, total: int, page: int, pageSize: int)
    requires total >= 0 && 1 <= pageSize && page >= 1
    requires IsI64(total) && IsI64(pageSize) && IsI64(total + pageSize - 1)
    ensures NewPaginated(items, total, page, pageSize).HasPrev() <==> (page - 1) * pageSize > 0
  {
    if page > 1 {
      MulMonotone(1, page - 1, pageSize);
    }
  }

  // ---------- response envelope ----------

  datatype ErrorDetail = ErrorDetail(field: Option<string>, message: string)

  datatype ApiError = ApiError(code: int, message: string, details: Option<seq<ErrorDetail>>)

  datatype ApiResponse<T> = ApiResponse(data: Option<T>, error: Option<ApiError>)
  {
    /** An envelope carries a payload or an error, never both and never neither. */
    predicate Exclusive() {
      data.Some? != error.Some?
    }
  }

  /** `ApiResponse::success`. */
  function SuccessResponse<T>(data: T): (r: ApiResponse<T>)
    ensures r.Exclusive() && r.data == Some(data)
  {
    ApiResponse(Some(data), None)
  }

  /** `ApiResponse::error`: an error envelope without field details. */
  function ErrorResponse(code: int, message: string): (r: ApiResponse<()>)
    ensures r.Exclusive() && r.error.Some?
    ensures r.error.value.code == code && r.error.value.message == message && r.error.value.details.None?
  {
    ApiResponse(None, Some(ApiError(code, message, None)))
  }

  // ---------- errors ----------

  datatype AppError =
    | NotFound(msg: string)
    | BadRequest(msg: string)
    | ValidationError(msg: string)
    | InternalError(msg: string)

  /** The HTTP status of each error (sections 15.5.5, 15.5.1, 15.5.21 and 15.6.1 of RFC 9110). */
  function StatusOf(e: AppError): int {
    match e
    case NotFound(_) => 404
    case BadRequest(_) => 400
    case ValidationError(_) => 422
    case InternalError(_) => 500
  }

  /** The error variant a status code stands for; the inverse of `StatusOf`. */
  function VariantOf(status: int, msg: string): Option<AppError> {
    if status == 404 then Some(NotFound(msg))
    else if status == 400 then Some(BadRequest(msg))
    else if status == 422 then Some(ValidationError(msg))
    else if status == 500 then Some(InternalError(msg))
    else None
  }

  /**
   * `AppError::into_response`: the status line and the JSON body. The body's error code
   * is the status itself, so a client can recover the error variant from either.
   */
  function IntoResponse(e: AppError): (r: (int, ApiResponse<()>))
    ensures r.1.Exclusive() && r.1.error.Some? && r.1.error.value.code == r.0
    ensures r.1.error.value.message == e.msg && r.1.error.value.details.None?
    ensures VariantOf(r.0, e.msg) == Some(e)
    ensures e.InternalError? <==> 500 <= r.0 < 600
    ensures !e.InternalError? <==> 400 <= r.0 < 500
  {
    var status := StatusOf(e);
    (status, ErrorResponse(status, e.msg))
  }

  // ---------- handlers ----------

  const MOCK_TOTAL: int := 100
  const MAX_PAGE_SIZE: int := 100

  /** The placeholder user the template fabricates for index `i`. */
  function MockUser(i: nat): User {
    User(NatToString(i), "user" + NatToString(i) + "@example.com", "User " + NatToString(i),
         Active, FIXED_TIMESTAMP, FIXED_TIMESTAMP)
  }

  function Min(a: int, b: int): int {
    if a <= b then a else b
  }

  /** The index range `start..end` of a page, computed exactly (no i64 wrap-around). */
  function PageRange(page: int, pageSize: int): (r: (int, int)) {
    ((page - 1) * pageSize, Min(page * pageSize, MOCK_TOTAL))
  }

  /**
   * `list_users`: rejects a page below 1 or a page size outside 1..=100 before producing
   * anything; otherwise returns the users with ids `start..end` of the mock collection.
   */
  method ListUsers(page: int, pageSize: int) returns (r: Result<ApiResponse<PaginatedResponse<User>>, AppError>)
    requires IsI64(page) && IsI64(pageSize)
    ensures page < 1 ==> r.Failure? && r.error.BadRequest?
    ensures page >= 1 && !(1 <= pageSize <= MAX_PAGE_SIZE) ==> r.Failure? && r.error.BadRequest?
    ensures page >= 1 && 1 <= pageSize <= MAX_PAGE_SIZE ==> r.Success?
    ensures r.Success? ==>
      var (start, end) := PageRange(page, pageSize);
      && r.value.Exclusive() && r.value.data.Some?
      && var p := r.value.data.value;
      && p.total == MOCK_TOTAL && p.page == page && p.pageSize == pageSize
      && IsPageCount(p.pages, MOCK_TOTAL, pageSize)
      && |p.items| == (if start < end then end - start else 0)
      && |p.items| <= pageSize
      && (start >= MOCK_TOTAL ==> p.items == [])
      && forall j :: 0 <= j < |p.items| ==> p.items[j] == MockUser(start + j) && start + j < MOCK_TOTAL
  {
    if page < 1 {
      return Failure(BadRequest("page must be >= 1"));
    }
    if pageSize < 1 || pageSize > MAX_PAGE_SIZE {
      return Failure(BadRequest("page_size must be between 1 and 100"));
    }
    var start := (page - 1) * pageSize;
    var end := Min(page * pageSize, MOCK_TOTAL);
    assert start >= 0 by { MulMonotone(0, page - 1, pageSize); }
    var items: seq<User> := [];
    var i := start;
    while i < end
      invariant start <= i && (i <= end || i == start)
      invariant |items| == i - start
      invariant forall j :: 0 <= j < |items| ==> items[j] == MockUser(start + j)
    {
      items := items + [MockUser(i)];
      i := i + 1;
    }
    assert (page - 1) * pageSize == page * pageSize - pageSize;
    assert PageRange(page, pageSize) == (start, end);
    var response := NewPaginated(items, MOCK_TOTAL, page, pageSize);
    r := Success(SuccessResponse(response));
  }

  /** `get_user`: the mock store has every user except id "999". */
  function GetUser(userId: string): (r: Result<ApiResponse<User>, AppError>)
    ensures r.Failure? <==> userId == "999"
    ensures r.Failure? ==> r.error.NotFound?
    ensures r.Success? ==> r.value.Exclusive() && r.value.data.Some? && r.value.data.value.id == userId
  {
    if userId == "999" then Failure(NotFound("User with id " + userId + " not found"))
    else Success(SuccessResponse(User(userId, DEFAULT_EMAIL, DEFAULT_NAME, Active, FIXED_TIMESTAMP, FIXED_TIMESTAMP)))
  }

  /**
   * `update_user`: `valid` is the `validator` crate's verdict on the payload, checked
   * first; then the id lookup; then absent fields take the fixed defaults that
   * `get_user` also reports.
   */
  function UpdateUser(userId: string, payload: UserUpdate, valid: bool): (r: Result<ApiResponse<User>, AppError>)
    ensures !valid ==> r.Failure? && r.error.ValidationError?
    ensures valid ==> (r.Failure? <==> userId == "999")
    ensures valid && r.Failure? ==> r.error.NotFound?
    ensures r.Success? ==> r.value.Exclusive() && r.value.data.Some?
    ensures r.Success? && r.value.data.Some? ==>
      var u := r.value.data.value;
      && u.id == userId
      && u.email == (if payload.email.Some? then payload.email.value else DEFAULT_EMAIL)
      && u.name == (if payload.name.Some? then payload.name.value else DEFAULT_NAME)
      && u.status == (if payload.status.Some? then payload.status.value else Active)
  {
    if !valid then Failure(ValidationError("invalid payload"))
    else if userId == "999" then Failure(NotFound("User with id " + userId + " not found"))
    else
      var email := match payload.email case Some(e) => e case None => DEFAULT_EMAIL;
      var name := match payload.name case Some(n) => n case None => DEFAULT_NAME;
      var status := match payload.status case Some(s) => s case None => Active;
      Success(SuccessResponse(User(userId, email, name, status, FIXED_TIMESTAMP, FIXED_TIMESTAMP)))
  }

  const NO_CONTENT: int := 204

  /** `delete_user`: 204 No Content, or NotFound for id "999". */
  function DeleteUser(userId: string): (r: Result<int, AppError>)
    ensures r.Failure? <==> userId == "999"
    ensures r.Failure? ==> r.error.NotFound?
    ensures r.Success? ==> r.value == NO_CONTENT
  {
    if userId == "999" then Failure(NotFound("User with id " + userId + " not found")) else Success(NO_CONTENT)
  }

  /** The three single-user handlers agree on which users exist, and an empty update is a read. */
  lemma HandlersAgree(userId: string)
    ensures GetUser(userId).Failure? == DeleteUser(userId).Failure?
    ensures UpdateUser(userId, UserUpdate(None, None, None), true) == GetUser(userId)
  {
  }

  // ---------- the page slice as written, with i64 arithmetic ----------

  /** Two's-complement wrap-around of an integer to i64 (a release build's `*`). */
  function WrapI64(x: int): (r: int)
    ensures IsI64(r)
    ensures IsI64(x) ==> r == x
  {
    (x - I64_MIN) % TWO_64 + I64_MIN
  }

  /** `x as usize` for an i64 on a 64-bit target. */
  function AsUsize(x: int): nat
    requires IsI64(x)
  {
    x % TWO_64
  }

  /** `start` and `end` of list_users.rs as written, in release-build i64 arithmetic. */
  function PageRangeAsWritten(page: int, pageSize: int): (r: (nat, nat))
    requires IsI64(page) && IsI64(pageSize) && page >= 1
  {
    (AsUsize(WrapI64((page - 1) * pageSize)), AsUsize(Min(WrapI64(page * pageSize), MOCK_TOTAL)))
  }

  /** A valid request whose products overflow i64 gets four users beyond the total of 100. */
  lemma PageRangeOverflows()
    ensures var (start, end) := PageRangeAsWritten(0x2000_0000_0000_0001, 4);
      start < end && start >= MOCK_TOTAL && end - start == 4
  {
  }

  /** Without overflow the page range as written is the exact one. */
  lemma PageRangeAsWrittenExact(page: int, pageSize: int)
    requires IsI64(page) && page >= 1 && 1 <= pageSize <= MAX_PAGE_SIZE
    requires page * pageSize <= I64_MAX
    ensures PageRangeAsWritten(page, pageSize) == PageRange(page, pageSize)
  {
    MulMonotone(page - 1, page, pageSize);
    MulMonotone(0, page - 1, pageSize);
  }
}
