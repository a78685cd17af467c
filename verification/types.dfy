/** The value types shared by the store: events, the database configuration
    and its data source name, and the `JSON` payload column type. */
module Types {
  import opened Results

  type byte = b: int | 0 <= b < 256

  /** A `JSON` payload: the raw bytes of one JSON value; empty means "no data". */
  type JSON = seq<byte>

  /** One row of the `events` table. `createdAt` is a nullable timestamp in seconds. */
  datatype Event = Event(
    id: nat,
    eventType: string,
    aggregateType: string,
    aggregateId: string,
    data: JSON,
    createdAt: Option<int>)

  datatype DBConfig = DBConfig(host: string, port: int, dbName: string, user: string, password: string)

  // ---------------------------------------------------------------------------
  // Decimal formatting of an int (the `%d` verb) and its inverse

  predicate IsDigit(c: char) { '0' <= c <= '9' }

  predicate AllDigits(s: string) { forall i :: 0 <= i < |s| ==> IsDigit(s[i]) }

  function DigitChar(d: nat): (c: char)
    requires d < 10
    ensures IsDigit(c) && c as int - '0' as int == d
  {
    (d + '0' as int) as char
  }

  /** The decimal digits of `n`, most significant first, without leading zeros. */
  function Digits(n: nat): (s: string)
    ensures |s| > 0 && AllDigits(s)
    decreases n
  {
    if n < 10 then [DigitChar(n)] else Digits(n / 10) + [DigitChar(n % 10)]
  }

  /** `%d` of an int: a minus sign for negative numbers, then the digits. */
  function Decimal(n: int): (s: string)
    ensures |s| > 0
  {
    if n < 0 then "-" + Digits(-n) else Digits(n)
  }

  function DigitsValue(s: string): nat
    requires AllDigits(s)
  {
    if s == [] then 0 else DigitsValue(s[..|s| - 1]) * 10 + (s[|s| - 1] as int - '0' as int)
  }

  /** Reads back an optionally negative decimal number; `None` on anything else. */
  function ParseDecimal(s: string): Option<int>
  {
    if |s| > 1 && s[0] == '-' && AllDigits(s[1..]) then Some(-(DigitsValue(s[1..]) as int))
    else if |s| > 0 && AllDigits(s) then Some(DigitsValue(s))
    else None
  }

  lemma {:induction false} DigitsRoundTrip(n: nat)
    ensures DigitsValue(Digits(n)) == n
  {
    if n >= 10 {
      var s := Digits(n);
      assert s[..|s| - 1] == Digits(n / 10);
      DigitsRoundTrip(n / 10);
    }
  }

  lemma DecimalRoundTrip(n: int)
    ensures ParseDecimal(Decimal(n)) == Some(n)
  {
    if n < 0 {
      assert Decimal(n)[1..] == Digits(-n);
      DigitsRoundTrip(-n);
    } else {
      assert !IsDigit('-');
      DigitsRoundTrip(n);
    }
  }

  // ---------------------------------------------------------------------------
  // DBConfig.ToDSN

  /** The data source name `user:password@(host:port)/dbname`. */
  function ToDSN(config: DBConfig): (dsn: string)
    ensures |dsn| >= |config.dbName| + 2
    ensures dsn[|dsn| - |config.dbName| - 2..] == ")/" + config.dbName
    ensures |dsn| > |config.user| && dsn[..|config.user| + 1] == config.user + ":"
  {
    config.user + ":" + config.password + "@(" + config.host + ":" + Decimal(config.port) + ")/" + config.dbName
  }

  /** Splits `s` at the first occurrence of `c`. */
  function SplitFirst(s: string, c: char): (r: Option<(string, string)>)
    ensures r.Some? ==> c !in r.value.0 && s == r.value.0 + [c] + r.value.1
    ensures r.None? ==> c !in s
  {
    if s == [] then None
    else if s[0] == c then Some(([], s[1..]))
    else match SplitFirst(s[1..], c)
      case None => None
      case Some(parts) => Some(([s[0]] + parts.0, parts.1))
  }

  lemma {:induction false} SplitFirstAt(a: string, c: char, b: string)
    requires c !in a
    ensures SplitFirst(a + [c] + b, c) == Some((a, b))
  {
    var s := a + [c] + b;
    if a == [] {
      assert s[1..] == b;
    } else {
      assert s[0] == a[0] != c;
      assert s[1..] == a[1..] + [c] + b;
      SplitFirstAt(a[1..], c, b);
      assert [s[0]] + a[1..] == a;
    }
  }

  /** An inverse of ToDSN for names whose separators are unambiguous. */
  function ParseDSN(dsn: string): Option<DBConfig>
  {
    match SplitFirst(dsn, ':')
    case None => None
    case Some((user, rest)) => ParseCredentials(user, rest)
  }

  function ParseCredentials(user: string, rest: string): Option<DBConfig>
  {
    match SplitFirst(rest, '@')
    case None => None
    case Some((password, address)) => ParseAddress(user, password, address)
  }

  function ParseAddress(user: string, password: string, address: string): Option<DBConfig>
  {
    if |address| == 0 || address[0] != '(' then None
    else match SplitFirst(address[1..], ':')
      case None => None
      case Some((host, rest)) => ParsePortAndName(user, password, host, rest)
  }

  function ParsePortAndName(user: string, password: string, host: string, rest: string): Option<DBConfig>
  {
    match SplitFirst(rest, ')')
    case None => None
    case Some((port, path)) =>
      if |path| == 0 || path[0] != '/' then None
      else match ParseDecimal(port)
        case None => None
        case Some(p) => Some(DBConfig(host, p, path[1..], user, password))
  }

  lemma DecimalHasNoParen(n: int)
    ensures ')' !in Decimal(n)
  {
    var s := Decimal(n);
    if n < 0 {
      assert forall i :: 1 <= i < |s| ==> s[i] == Digits(-n)[i - 1];
    }
  }

  lemma ParsePortAndNameOf(user: string, password: string, host: string, port: int, dbName: string)
    ensures ParsePortAndName(user, password, host, Decimal(port) + [')'] + "/" + dbName)
         == Some(DBConfig(host, port, dbName, user, password))
  {
    var path := "/" + dbName;
    assert Decimal(port) + [')'] + "/" + dbName == Decimal(port) + [')'] + path;
    DecimalHasNoParen(port);
    SplitFirstAt(Decimal(port), ')', path);
    DecimalRoundTrip(port);
    assert path[1..] == dbName;
  }

  lemma ParseAddressOf(user: string, password: string, host: string, rest: string)
    requires ':' !in host
    ensures ParseAddress(user, password, "(" + host + [':'] + rest) == ParsePortAndName(user, password, host, rest)
  {
    var address := "(" + host + [':'] + rest;
    assert address[1..] == host + [':'] + rest;
    SplitFirstAt(host, ':', rest);
  }

  lemma ParseCredentialsOf(user: string, password: string, rest: string)
    requires '@' !in password
    ensures ParseCredentials(user, password + ['@'] + rest) == ParseAddress(user, password, rest)
  {
    SplitFirstAt(password, '@', rest);
  }

  /** ToDSN loses nothing when the user name and host hold no ':' and the
      password holds no '@'. */
  lemma ToDSNRoundTrip(config: DBConfig)
    requires ':' !in config.user && '@' !in config.password && ':' !in config.host
    ensures ParseDSN(ToDSN(config)) == Some(config)
  {
    var afterHost := Decimal(config.port) + [')'] + "/" + config.dbName;
    var address := "(" + config.host + [':'] + afterHost;
    var afterUser := config.password + ['@'] + address;
    assert ToDSN(config) == config.user + [':'] + afterUser;
    SplitFirstAt(config.user, ':', afterUser);
    ParseCredentialsOf(config.user, config.password, address);
    ParseAddressOf(config.user, config.password, config.host, afterHost);
    ParsePortAndNameOf(config.user, config.password, config.host, config.port, config.dbName);
  }

  // ---------------------------------------------------------------------------
  // JSON.Value and JSON.Scan

  /** What the SQL layer hands a column scanner, or takes from a valuer:
      NULL, a byte slice, or any other Go value (described by its text). */
  datatype DriverValue = Null | Bytes(bytes: seq<byte>) | Other(description: string)

  /** JSON.Value: empty data is stored as NULL; anything else as its own bytes
      (`json.RawMessage.MarshalJSON` returns a non-nil message unchanged). */
  function Value(j: JSON): (r: Result<DriverValue>)
    ensures r.Ok?
    ensures r.value.Null? <==> |j| == 0
    ensures r.value.Bytes? ==> r.value.bytes == j
    ensures !r.value.Other?
  {
    if |j| == 0 then Ok(Null) else Ok(Bytes(j))
  }

  /** The effect of a Scan: the receiver is left alone, or it is assigned and
      an error may still be returned. */
  datatype ScanOutcome = Rejected(error: string) | Assigned(raw: JSON, err: Option<string>)

  /** What Scan reports for a value that is not a byte slice (the value itself,
      which it appends, is left out). */
  const ScanRejected := "Failed to unmarshal JSONB value"

  /** JSON.Scan as written. `decoded` is the outcome of `json.Unmarshal` on the
      bytes: the decoded message, or the error it reported (then the message it
      assigns is still the empty one it started from). */
  function ScanOutcomeOf(value: DriverValue, decoded: Result<JSON>): (r: ScanOutcome)
    ensures r.Rejected? <==> !value.Bytes?
    ensures r.Assigned? ==> (r.err.None? <==> decoded.Ok?)
    ensures r.Assigned? ==> r.raw == (if decoded.Ok? then decoded.value else [])
  {
    match value
    case Bytes(_) =>
      (match decoded
       case Ok(message) => Assigned(message, None)
       case Err(e) => Assigned([], Some(e)))
    case _ => Rejected(ScanRejected)
  }

  /** The receiver of a Scan, a `*JSON`. */
  class JSONCell {
    var raw: JSON

    constructor (raw: JSON)
      ensures this.raw == raw
    {
      this.raw := raw;
    }

    method Scan(value: DriverValue, decoded: Result<JSON>) returns (err: Option<string>)
      modifies this
      ensures !value.Bytes? ==> raw == old(raw) && err.Some?
      ensures value.Bytes? ==> raw == ScanOutcomeOf(value, decoded).raw && err == ScanOutcomeOf(value, decoded).err
    {
      match ScanOutcomeOf(value, decoded)
      case Rejected(e) =>
        err := Some(e);
      case Assigned(message, e) =>
        raw := message;
        err := e;
    }
  }

  /** A NULL column arrives at a scanner as `Null`; the data of an event with an
      empty payload was written as NULL by Value, and Scan as written refuses it. */
  lemma EmptyDataNotReadable(decoded: Result<JSON>)
    ensures Value([]) == Ok(Null)
    ensures ScanOutcomeOf(Value([]).value, decoded).Rejected?
  {
  }

  /** Scan with NULL read back as empty data, which is what Value writes NULL for. */
  function ScanNullable(value: DriverValue, decoded: Result<JSON>): (r: ScanOutcome)
    ensures value.Null? ==> r == Assigned([], None)
    ensures !value.Null? ==> r == ScanOutcomeOf(value, decoded)
  {
    if value.Null? then Assigned([], None) else ScanOutcomeOf(value, decoded)
  }

  /** Every payload Value writes is read back by ScanNullable, given that
      `json.Unmarshal` returns a well-formed message unchanged. */
  lemma ValueScanRoundTrip(j: JSON, decoded: Result<JSON>)
    requires decoded == Ok(j)
    ensures ScanNullable(Value(j).value, decoded) == Assigned(j, None)
  {
  }
}
