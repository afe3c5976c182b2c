/**
  The values the Flask handlers of app.py work with: JSON request payloads,
  the three stored record kinds of models.py, Python's `str.strip`, and the
  replies the handlers send back.
*/
module Records {
  import opened Wrappers

  /** A JSON scalar as Flask's `request.json` delivers it (arrays and objects are not modelled). */
  datatype Json = JNull | JBool(b: bool) | JNum(x: real) | JStr(s: string)

  /** A request body: a dictionary from key to JSON value. */
  type Payload = map<string, Json>

  /** Python's `data.get(key, default)`. */
  function Get(data: Payload, key: string, default: Json): Json {
    if key in data then data[key] else default
  }

  /** Python truthiness of a JSON value (`if data.get('temin_tarihi')`). */
  predicate Truthy(v: Json) {
    match v
    case JNull => false
    case JBool(b) => b
    case JNum(x) => x != 0.0
    case JStr(s) => s != []
  }

  /** The equipment states that the handlers and the statistics name. */
  const Depoda: string := "Depoda"
  const Kullanimda: string := "Kullanımda"
  const Arizali: string := "Arızalı"
  /** The movement kinds that change an equipment's state. */
  const Cikis: string := "Çıkış"
  const Iade: string := "İade"
  /** Description given to a category created on the fly by an equipment insert. */
  const UserDefined: string := "Kullanıcı tanımlı"

  /** A row of the `kategori` table; `ad` is unique and not null. */
  datatype Category = Category(ad: string, aciklama: Json)

  /** A row of the `ekipman` table; only `kategori` is not null. */
  datatype Equipment = Equipment(
    kategori: string,
    marka: Json,
    model: Json,
    seriNo: Json,
    barkod: Json,
    durum: Json,
    notlar: Json,
    teminTarihi: Json,
    teminFiyati: Json,
    tedarikci: Json)

  /** A row of the `ekipman_hareket` table. */
  datatype Movement = Movement(
    id: nat,
    ekipmanId: int,
    hareketTipi: Json,
    kullaniciAdi: Json,
    kullaniciPersonelNo: Json,
    birim: Json,
    lokasyon: Json,
    aciklama: Json,
    teslimAlan: Json,
    onaylayan: Json)

  /** Why a handler answered 400. */
  datatype Error =
    | EmptyName
    | NameExists(ad: string)
    | CategoryInUse(count: nat)
    | CategoryNotFound
    | EquipmentNotFound
    | MissingKey(key: string)
    | NullValue(key: string)
    | NotAString(key: string)
    | NotAnId
    | NotUnique(key: string)

  /** A handler's answer. */
  datatype Reply = Created(id: nat) | Done | Failed(error: Error) | NotFound

  /** The HTTP status of a reply. */
  function StatusCode(r: Reply): int {
    match r
    case Created(_) => 201
    case Done => 200
    case Failed(_) => 400
    case NotFound => 404
  }

  /** Python's `str.isspace` for one character. */
  predicate IsSpace(c: char) {
    var n := c as int;
    (0x09 <= n <= 0x0D) || (0x1C <= n <= 0x20) || n == 0x85 || n == 0xA0 || n == 0x1680
    || (0x2000 <= n <= 0x200A) || n == 0x2028 || n == 0x2029 || n == 0x202F || n == 0x205F || n == 0x3000
  }

  /** `str.lstrip()`: the suffix left after the leading white space. */
  function StripLeft(s: string): (r: string)
    ensures |r| <= |s| && r == s[|s| - |r|..]
    ensures forall k :: 0 <= k < |s| - |r| ==> IsSpace(s[k])
    ensures r != [] ==> !IsSpace(r[0])
  {
    if s != [] && IsSpace(s[0]) then StripLeft(s[1..]) else s
  }

  /** `str.rstrip()`: the prefix left before the trailing white space. */
  function StripRight(s: string): (r: string)
    ensures |r| <= |s| && r == s[..|r|]
    ensures forall k :: |r| <= k < |s| ==> IsSpace(s[k])
    ensures r != [] ==> !IsSpace(r[|r| - 1])
    ensures s != [] && !IsSpace(s[0]) ==> r != []
  {
    if s != [] && IsSpace(s[|s| - 1]) then StripRight(s[..|s| - 1]) else s
  }

  /** `str.strip()`. */
  function Strip(s: string): string {
    StripRight(StripLeft(s))
  }

  /**
    `strip` cuts `s` down to one slice and everything before and after it is
    white space.
  */
  lemma StripSlice(s: string)
    ensures var i := |s| - |StripLeft(s)|; 0 <= i <= |s| - |Strip(s)| && Strip(s) == s[i..i + |Strip(s)|]
    ensures var i := |s| - |StripLeft(s)|; forall k :: 0 <= k < i ==> IsSpace(s[k])
    ensures var i := |s| - |StripLeft(s)|; forall k :: i + |Strip(s)| <= k < |s| ==> IsSpace(s[k])
  {
    var l := StripLeft(s);
    var r := StripRight(l);
    var i := |s| - |l|;
    assert r == s[i..i + |r|] by {
      assert l == s[i..] && r == l[..|r|];
      assert s[i..][..|r|] == s[i..i + |r|];
    }
    forall k | i + |r| <= k < |s| ensures IsSpace(s[k]) {
      assert s[k] == l[k - i];
    }
  }

  /** The stripped name neither starts nor ends with white space. */
  lemma StripEnds(s: string)
    ensures var r := Strip(s); r != [] ==> !IsSpace(r[0]) && !IsSpace(r[|r| - 1])
  {
  }

  /** Stripping leaves nothing exactly when the string is all white space. */
  lemma StripEmptyIff(s: string)
    ensures Strip(s) == [] <==> forall k :: 0 <= k < |s| ==> IsSpace(s[k])
  {
  }

  /** Stripping twice is stripping once. */
  lemma StripIdempotent(s: string)
    ensures Strip(Strip(s)) == Strip(s)
  {
  }
}
