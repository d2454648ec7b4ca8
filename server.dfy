/**
 * The request gates, the JWT key-selection callback, and the row handling of data
 * import and export in the admin web server (webserver/server.go).
 */
module Webserver {
  import opened Wrappers
  import opened Strings
  import Strconv

  // -------------------------------------------------------------------- gates

  const SessionSkipPrefix: seq<string> :=
    ["/ready", "/realip", "/api", "/login", "/admin/login", "/radius/accounting/add", "/static"]
  const JwtSkipPrefix: seq<string> :=
    ["/ready", "/realip", "/login", "/admin/login", "/radius/accounting/add", "/static"]

  const LoginRedirect := "/login?errmsg=User not logged in or login expired"
  const StatusTemporaryRedirect := 307

  /** The prefix loop with early return: some entry of `prefixes` starts `path`. */
  function AnyPrefix(prefixes: seq<string>, path: string): (found: bool)
    ensures found <==> exists i :: 0 <= i < |prefixes| && HasPrefix(prefixes[i], path)
  {
    if prefixes == [] then false
    else if HasPrefix(prefixes[0], path) then true
    else
      var rest := AnyPrefix(prefixes[1..], path);
      assert forall i :: 1 <= i < |prefixes| ==> prefixes[1..][i - 1] == prefixes[i];
      rest
  }

  /**
   * jwtSkipFunc: requests skip the JWT check in development mode (TEAMSACS_DEVMODE set to
   * "true") and on the routes under a JwtSkipPrefix entry.
   */
  function JwtSkip(devMode: string, path: string): (skip: bool)
    ensures devMode == "true" ==> skip
    ensures devMode != "true" ==> (skip <==> exists p :: p in JwtSkipPrefix && HasPrefix(p, path))
  {
    devMode == "true" || AnyPrefix(JwtSkipPrefix, path)
  }

  /** What the session holds under the user-name key: nothing, a string or another value. */
  datatype SessionValue = Nil | Str(s: string) | NonString

  datatype Decision = Next | Redirect(code: int, location: string)

  /** The session holds a user: nil and the empty string do not count. */
  predicate LoggedIn(username: SessionValue)
  {
    !(username.Nil? || username == Str(""))
  }

  /**
   * sessionCheck: local requests to /dbapi, routes under a SessionSkipPrefix entry and
   * requests whose session holds a user go on; every other request is sent to the login page.
   */
  function SessionCheck(realIP: string, path: string, username: SessionValue): (d: Decision)
    ensures d.Next? <==>
      (realIP == "127.0.0.1" && HasPrefix("/dbapi", path))
      || (exists p :: p in SessionSkipPrefix && HasPrefix(p, path))
      || LoggedIn(username)
    ensures d.Redirect? ==> d == Redirect(StatusTemporaryRedirect, LoginRedirect)
  {
    if realIP == "127.0.0.1" && HasPrefix("/dbapi", path) then Next
    else if AnyPrefix(SessionSkipPrefix, path) then Next
    else if !LoggedIn(username) then Redirect(StatusTemporaryRedirect, LoginRedirect)
    else Next
  }

  /** Routes under /api skip the session check but, outside development mode, not the JWT check. */
  lemma {:induction false} ApiNeedsToken(devMode: string, path: string, ip: string, username: SessionValue)
    requires HasPrefix("/api", path) && devMode != "true"
    ensures SessionCheck(ip, path, username) == Next
    ensures !JwtSkip(devMode, path)
  {
    assert SessionSkipPrefix[2] == "/api";
    forall p | p in JwtSkipPrefix ensures !HasPrefix(p, path) {
      assert p[1] != path[1] || p[2] != path[2];
    }
  }

  /** A request that skips the JWT check by prefix also skips the session check. */
  lemma {:induction false} JwtSkipImpliesSessionSkip(ip: string, path: string, username: SessionValue)
    requires AnyPrefix(JwtSkipPrefix, path)
    ensures SessionCheck(ip, path, username) == Next
  {
    var i :| 0 <= i < |JwtSkipPrefix| && HasPrefix(JwtSkipPrefix[i], path);
    assert JwtSkipPrefix[i] in SessionSkipPrefix;
  }

  // ------------------------------------------------------------ JWT key selection

  /** A JWT header value: a string or some other JSON value, shown by its %v rendering. */
  datatype HeaderValue = HStr(s: string) | HOther(shown: string)

  /** %v of a header entry; a missing one prints as <nil>. */
  function Show(v: Option<HeaderValue>): string
  {
    match v
    case None => "<nil>"
    case Some(HStr(s)) => s
    case Some(HOther(shown)) => shown
  }

  function HeaderAt(header: map<string, HeaderValue>, name: string): Option<HeaderValue>
  {
    if name in header then Some(header[name]) else None
  }

  /** The JWT part of the server configuration (echojwt.Config). */
  datatype JwtConfig<K> = JwtConfig(signingMethod: string, signingKeys: map<string, K>, signingKey: K)

  /**
   * The key callback of ParseJwtToken: the token's algorithm must be the configured one;
   * with a key set, the "kid" header picks the key; otherwise the single key is used.
   */
  function SigningKeyFor<K>(alg: string, header: map<string, HeaderValue>, config: JwtConfig<K>)
    : (r: Result<K, string>)
    ensures alg != config.signingMethod ==>
      r == Err("unexpected jwt signing method=" + Show(HeaderAt(header, "alg")))
    ensures alg == config.signingMethod && |config.signingKeys| == 0 ==> r == Ok(config.signingKey)
    ensures alg == config.signingMethod && |config.signingKeys| > 0 ==>
      match HeaderAt(header, "kid")
      case Some(HStr(kid)) =>
        if kid in config.signingKeys then r == Ok(config.signingKeys[kid])
        else r == Err("unexpected jwt key id=" + kid)
      case v => r == Err("unexpected jwt key id=" + Show(v))
  {
    if alg != config.signingMethod then Err("unexpected jwt signing method=" + Show(HeaderAt(header, "alg")))
    else if |config.signingKeys| > 0 then
      var kid := HeaderAt(header, "kid");
      if kid.Some? && kid.value.HStr? && kid.value.s in config.signingKeys then Ok(config.signingKeys[kid.value.s])
      else Err("unexpected jwt key id=" + Show(kid))
    else Ok(config.signingKey)
  }

  /**
   * A key is handed out only to a token with the configured algorithm, and, when a key set
   * is configured, only the key its string "kid" names.
   */
  lemma {:induction false} KeyOnlyForKnownKid<K>(alg: string, header: map<string, HeaderValue>, config: JwtConfig<K>, k: K)
    requires SigningKeyFor(alg, header, config) == Ok(k)
    ensures alg == config.signingMethod
    ensures |config.signingKeys| > 0 ==>
      "kid" in header && header["kid"].HStr? && header["kid"].s in config.signingKeys
      && k == config.signingKeys[header["kid"].s]
    ensures |config.signingKeys| == 0 ==> k == config.signingKey
  {
  }

  // -------------------------------------------------------------------- import

  /** A decoded cell: what the JSON, CSV or Excel readers put in a row map. */
  datatype Value = VStr(s: string) | VInt(i: int) | VBool(b: bool) | VNil | VOther(shown: string)

  /** cast.ToString. */
  function ToString(v: Value): string
  {
    match v
    case VStr(s) => s
    case VInt(i) => Strconv.FormatInt(i)
    case VBool(b) => if b then "true" else "false"
    case VNil => ""
    case VOther(shown) => shown
  }

  type Item = map<string, Value>

  datatype Format = Json | Csv | Excel

  /** The reader is chosen by the file name's ending, without a dot: "json", then "csv". */
  function ReaderFor(filename: string): (f: Format)
    ensures f == Json <==> HasSuffix(filename, "json")
    ensures f == Csv <==> !HasSuffix(filename, "json") && HasSuffix(filename, "csv")
    ensures f == Excel <==> !HasSuffix(filename, "json") && !HasSuffix(filename, "csv")
  {
    if HasSuffix(filename, "json") then Json
    else if HasSuffix(filename, "csv") then Csv
    else Excel
  }

  /** The key holds a value that common.IsEmptyOrNA does not reject. */
  predicate Usable(item: Item, key: string, emptyOrNA: string -> bool)
  {
    key in item && !emptyOrNA(ToString(item[key]))
  }

  /** Some key of "id", "ID", "Id" holds a usable value. */
  predicate UsableId(item: Item, emptyOrNA: string -> bool)
  {
    Usable(item, "id", emptyOrNA) || Usable(item, "ID", emptyOrNA) || Usable(item, "Id", emptyOrNA)
  }

  /**
   * One step of the import loop, as written: look at "id", then "ID", then "Id", each only
   * while nothing usable has been found, and give the row a fresh "id" when none served.
   */
  function FillId(item: Item, emptyOrNA: string -> bool, newId: int): Item
  {
    var ok1 := "id" in item;
    var id1 := if ok1 then item["id"] else VNil;
    var miss1 := !ok1 || emptyOrNA(ToString(id1));
    var ok2 := if miss1 then "ID" in item else ok1;
    var id2 := if miss1 then (if ok2 then item["ID"] else VNil) else id1;
    var miss2 := !ok2 || emptyOrNA(ToString(id2));
    var ok3 := if miss2 then "Id" in item else ok2;
    var id3 := if miss2 then (if ok3 then item["Id"] else VNil) else id2;
    if !ok3 || emptyOrNA(ToString(id3)) then item["id" := VStr(Strconv.FormatInt(newId))] else item
  }

  /**
   * A row is given a new "id" exactly when none of "id", "ID", "Id" holds a usable value;
   * no other key is ever written, and a row with a usable id under any of them is unchanged.
   */
  lemma {:induction false} FillIdMeaning(item: Item, emptyOrNA: string -> bool, newId: int)
    ensures var usable := UsableId(item, emptyOrNA);
      && (usable ==> FillId(item, emptyOrNA, newId) == item)
      && (!usable ==> FillId(item, emptyOrNA, newId) == item["id" := VStr(Strconv.FormatInt(newId))])
  {
  }

  /**
   * The id-filling loop of ImportData. `uuid(i)` is the value common.UUIDint64 hands out
   * when row i needs an id.
   */
  method FillIds(items: seq<Item>, emptyOrNA: string -> bool, uuid: nat -> int) returns (datas: seq<Item>)
    ensures |datas| == |items|
    ensures forall i :: 0 <= i < |items| ==> datas[i] == FillId(items[i], emptyOrNA, uuid(i))
  {
    datas := [];
    var i := 0;
    while i < |items|
      invariant 0 <= i <= |items|
      invariant |datas| == i
      invariant forall j :: 0 <= j < i ==> datas[j] == FillId(items[j], emptyOrNA, uuid(j))
    {
      var item := FillOne(items[i], emptyOrNA, uuid(i));
      datas := datas + [item];
      i := i + 1;
    }
  }

  /** One pass of the import loop body over a single row. */
  method FillOne(item: Item, emptyOrNA: string -> bool, newId: int) returns (out: Item)
    ensures out == FillId(item, emptyOrNA, newId)
  {
    out := item;
    var id, ok := VNil, "id" in item;
    if ok { id := item["id"]; }
    if !ok || emptyOrNA(ToString(id)) {
      ok := "ID" in item;
      id := if ok then item["ID"] else VNil;
    }
    if !ok || emptyOrNA(ToString(id)) {
      ok := "Id" in item;
      id := if ok then item["Id"] else VNil;
    }
    if !ok || emptyOrNA(ToString(id)) {
      out := item["id" := VStr(Strconv.FormatInt(newId))];
    }
  }

  /**
   * The import keeps the rows and their order, writes no key but "id", and leaves a row with
   * a usable id under "id", "ID" or "Id" as it was.
   */
  lemma {:induction false} ImportPreserves(items: seq<Item>, datas: seq<Item>, emptyOrNA: string -> bool, uuid: nat -> int)
    requires |datas| == |items|
    requires forall i :: 0 <= i < |items| ==> datas[i] == FillId(items[i], emptyOrNA, uuid(i))
    ensures forall i, k :: 0 <= i < |items| && k in items[i] && k != "id" ==> k in datas[i] && datas[i][k] == items[i][k]
    ensures forall i :: 0 <= i < |items| ==> datas[i].Keys <= items[i].Keys + {"id"}
    ensures forall i :: 0 <= i < |items| && UsableId(items[i], emptyOrNA) ==> datas[i] == items[i]
  {
    forall i | 0 <= i < |items| {
      FillIdMeaning(items[i], emptyOrNA, uuid(i));
    }
  }

  /** The upload as the form delivers it. */
  datatype Upload = Upload(filename: string)

  /**
   * ImportData: a missing upload, a file that cannot be opened, or a reader error is
   * returned as is; otherwise the rows read by the reader the file name selects, ids filled in.
   * `read` stands for the three readers (the sheet name goes to the Excel one).
   */
  method ImportData(upload: Result<Upload, string>, openErr: Option<string>,
                    read: Format -> Result<seq<Item>, string>, emptyOrNA: string -> bool,
                    uuid: nat -> int)
    returns (r: Result<seq<Item>, string>)
    ensures upload.Err? ==> r == Err(upload.error)
    ensures upload.Ok? && openErr.Some? ==> r == Err(openErr.value)
    ensures upload.Ok? && openErr.None? ==>
      match read(ReaderFor(upload.value.filename))
      case Err(e) => r == Err(e)
      case Ok(rows) =>
        r.Ok? && |r.value| == |rows|
        && forall i :: 0 <= i < |rows| ==> r.value[i] == FillId(rows[i], emptyOrNA, uuid(i))
  {
    if upload.Err? {
      return Err(upload.error);
    }
    if openErr.Some? {
      return Err(openErr.value);
    }
    var items := read(ReaderFor(upload.value.filename));
    if items.Err? {
      return Err(items.error);
    }
    var datas := FillIds(items.value, emptyOrNA, uuid);
    return Ok(datas);
  }

  // -------------------------------------------------------------------- export

  /** The sort.Slice of ExportData, whose comparison puts "id" before everything else. */
  function IdFirst(names: seq<string>): (r: seq<string>)
    ensures multiset(r) == multiset(names)
    ensures "id" in names ==> r[0] == "id"
  {
    if "id" in names then ["id"] + RemoveFirst(names, "id") else names
  }

  /** No name occurs twice. */
  predicate Distinct(names: seq<string>)
  {
    forall i, j :: 0 <= i < j < |names| ==> names[i] != names[j]
  }

  /** The position of the first `x`. */
  function IndexOf(names: seq<string>, x: string): (k: nat)
    requires x in names
    ensures k < |names| && names[k] == x && x !in names[..k]
  {
    if names[0] == x then 0 else 1 + IndexOf(names[1..], x)
  }

  /** `names` with the first `x` taken out; the others keep their order. */
  function RemoveFirst(names: seq<string>, x: string): (r: seq<string>)
    ensures multiset(r) == multiset(names) - multiset{x}
  {
    if x in names then
      var k := IndexOf(names, x);
      assert names == names[..k] + [x] + names[k + 1..];
      names[..k] + names[k + 1..]
    else names
  }

  /** Taking out the first `x` of a sequence without repeats leaves no repeats and no `x`. */
  lemma {:induction false} RemoveFirstDistinct(names: seq<string>, x: string)
    requires Distinct(names) && x in names
    ensures Distinct(RemoveFirst(names, x)) && x !in RemoveFirst(names, x)
  {
    var k := IndexOf(names, x);
    var r := RemoveFirst(names, x);
    RemoveFirstAt(names, x);
    forall i, j | 0 <= i < j < |r| ensures r[i] != r[j] {
      assert r[i] == names[if i < k then i else i + 1];
      assert r[j] == names[if j < k then j else j + 1];
    }
    forall p | 0 <= p < |r| ensures r[p] != x {
      assert r[p] == names[if p < k then p else p + 1];
    }
  }

  /** Where each name of RemoveFirst comes from: positions before the first `x` stay, later ones move up. */
  lemma {:induction false} RemoveFirstAt(names: seq<string>, x: string)
    requires x in names
    ensures var k := IndexOf(names, x); var r := RemoveFirst(names, x);
      && |r| == |names| - 1 && names[k] == x
      && forall p :: 0 <= p < |r| ==> r[p] == names[if p < k then p else p + 1]
  {
    var k := IndexOf(names, x);
    var r := RemoveFirst(names, x);
    assert r == names[..k] + names[k + 1..];
    forall p | 0 <= p < |r| ensures r[p] == names[if p < k then p else p + 1] {
      if p < k { assert r[p] == names[..k][p]; } else { assert r[p] == names[k + 1..][p - k]; }
    }
  }

  /** Putting "id" first keeps a list of distinct names distinct. */
  lemma {:induction false} IdFirstDistinct(names: seq<string>)
    requires Distinct(names)
    ensures Distinct(IdFirst(names))
  {
    if "id" in names {
      RemoveFirstDistinct(names, "id");
      var t := RemoveFirst(names, "id");
      var r := ["id"] + t;
      forall i, j | 0 <= i < j < |r| ensures r[i] != r[j] {
        assert r[j] == t[j - 1];
        if i > 0 { assert r[i] == t[i - 1]; }
      }
    }
  }

  /** cast.ToString(item[name]): a missing key reads as nil, written as "". */
  function Cell(item: Item, name: string): string
  {
    if name in item then ToString(item[name]) else ""
  }

  /** The cells of one data row, column by column. */
  function RowOf(item: Item, names: seq<string>): (row: seq<string>)
    ensures |row| == |names|
    ensures forall j :: 0 <= j < |names| ==> row[j] == Cell(item, names[j])
  {
    if names == [] then [] else [Cell(item, names[0])] + RowOf(item, names[1..])
  }

  /** `order` lists the keys of `item`, each once: one iteration order of the map. */
  ghost predicate Lists(order: seq<string>, item: Item)
  {
    (forall k :: k in order <==> k in item)
    && Distinct(order)
  }

  /**
   * The sheet ExportData fills: rows[0] is sheet row 1, the header, taken from the first
   * item's keys with "id" first; rows[i + 1] is sheet row i + 2, item i under the same
   * columns. `keyOrder` is the order in which the first item's keys are visited.
   */
  method ExportRows(data: seq<Item>, keyOrder: seq<string>) returns (names: seq<string>, rows: seq<seq<string>>)
    ensures data == [] ==> names == [] && rows == []
    ensures data != [] ==> names == IdFirst(keyOrder) && |rows| == |data| + 1 && rows[0] == names
    ensures forall i :: 0 <= i < |data| ==> rows[i + 1] == RowOf(data[i], names)
  {
    names := [];
    rows := [];
    if data == [] {
      return;
    }
    names := IdFirst(keyOrder);
    rows := [names];
    for i := 0 to |data|
      invariant |rows| == i + 1 && rows[0] == names
      invariant forall k :: 0 <= k < i ==> rows[k + 1] == RowOf(data[k], names)
    {
      var row := WriteRow(data[i], names);
      rows := rows + [row];
    }
  }

  /** The inner loop of ExportData: one cell per column. */
  method WriteRow(item: Item, names: seq<string>) returns (row: seq<string>)
    ensures row == RowOf(item, names)
  {
    row := [];
    for j := 0 to |names|
      invariant |row| == j
      invariant forall c :: 0 <= c < j ==> row[c] == Cell(item, names[c])
    {
      row := row + [Cell(item, names[j])];
    }
  }

  /**
   * The columns are the first item's keys, each once, "id" first when present: a key that
   * only later items have is not exported, and a later item lacking a column gets "".
   */
  lemma {:induction false} ExportColumns(data: seq<Item>, keyOrder: seq<string>)
    requires data != [] && Lists(keyOrder, data[0])
    ensures var names := IdFirst(keyOrder);
      && (forall k :: k in names <==> k in data[0])
      && Distinct(names)
      && ("id" in data[0] ==> names[0] == "id")
      && (forall i, j :: 0 <= i < |data| && 0 <= j < |names| && names[j] !in data[i] ==>
            RowOf(data[i], names)[j] == "")
  {
    var names := IdFirst(keyOrder);
    IdFirstDistinct(keyOrder);
    forall k ensures k in names <==> k in data[0] {
      assert k in names <==> multiset(names)[k] > 0;
      assert k in keyOrder <==> multiset(keyOrder)[k] > 0;
    }
  }
}
