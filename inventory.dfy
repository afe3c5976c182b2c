/**
  The inventory rules of the Flask handlers in app.py, on an abstract store
  instead of SQL: the `kategori`, `ekipman` and `ekipman_hareket` tables are
  fields of one object, a committed handler assigns them, and a rolled-back
  one leaves them as they were.
*/
module Inventory {
  import opened Wrappers
  import opened Records

  /** Category names are unique (`unique=True` on `Kategori.ad`). */
  predicate UniqueNames(cs: map<nat, Category>) {
    forall i, j :: i in cs && j in cs && cs[i].ad == cs[j].ad ==> i == j
  }

  /** Some category is named `ad` (`Kategori.query.filter_by(ad=ad).first()`). */
  predicate HasCategory(cs: map<nat, Category>, ad: string) {
    exists i :: i in cs && cs[i].ad == ad
  }

  /** A non-null serial number already held by a record of `eq`. */
  predicate SerialTaken(eq: map<nat, Equipment>, v: Json) {
    v != JNull && exists j :: j in eq && eq[j].seriNo == v
  }

  /** A non-null barcode already held by a record of `eq`. */
  predicate BarcodeTaken(eq: map<nat, Equipment>, v: Json) {
    v != JNull && exists j :: j in eq && eq[j].barkod == v
  }

  /** Non-null `seri_no` and `barkod` values are unique (`unique=True`; NULLs never clash). */
  predicate UniqueCodes(eq: map<nat, Equipment>) {
    forall i, j :: i in eq && j in eq && i != j ==>
      (eq[i].seriNo != JNull ==> eq[i].seriNo != eq[j].seriNo)
      && (eq[i].barkod != JNull ==> eq[i].barkod != eq[j].barkod)
  }

  /** Replacing one record by one whose codes no other record holds keeps the codes unique. */
  lemma ReplaceKeepsCodesUnique(eq: map<nat, Equipment>, id: nat, e: Equipment)
    requires UniqueCodes(eq)
    requires !SerialTaken(eq - {id}, e.seriNo) && !BarcodeTaken(eq - {id}, e.barkod)
    ensures UniqueCodes(eq[id := e])
  {
    var eq' := eq[id := e];
    forall i, j | i in eq' && j in eq' && i != j
      ensures (eq'[i].seriNo != JNull ==> eq'[i].seriNo != eq'[j].seriNo)
           && (eq'[i].barkod != JNull ==> eq'[i].barkod != eq'[j].barkod)
    {
      if i == id {
        assert j in eq - {id};
      } else if j == id {
        assert i in eq - {id};
      }
    }
  }

  /** Number of equipment records whose category is `ad`. */
  function UsageCount(eq: map<nat, Equipment>, ad: string): (n: nat)
    ensures n == 0 <==> forall i :: i in eq ==> eq[i].kategori != ad
  {
    var users := set i | i in eq && eq[i].kategori == ad;
    assert (forall i :: i in eq ==> eq[i].kategori != ad) ==> users == {};
    assert forall i :: i in eq && eq[i].kategori == ad ==> i in users;
    |users|
  }

  /** The trimmed category name of an `add_kategori` request, or why it is refused. */
  function RequestedName(data: Payload): (r: Result<string, Error>)
    ensures r.Success? ==> r.value != [] && !IsSpace(r.value[0]) && !IsSpace(r.value[|r.value| - 1])
    ensures r.Success? ==> Get(data, "ad", JStr("")).JStr? && r.value == Strip(Get(data, "ad", JStr("")).s)
    ensures r.Success? <==> Get(data, "ad", JStr("")).JStr? && Strip(Get(data, "ad", JStr("")).s) != []
    ensures r.Failure? ==> r.error == EmptyName || r.error == NotAString("ad")
    ensures r.Failure? ==> (r.error == NotAString("ad") <==> !Get(data, "ad", JStr("")).JStr?)
  {
    var raw := Get(data, "ad", JStr(""));
    if !raw.JStr? then Failure(NotAString("ad"))
    else
      StripEnds(raw.s);
      if Strip(raw.s) == [] then Failure(EmptyName) else Success(Strip(raw.s))
  }

  /**
    The record `ekipman_ekle` builds for category `ad`. A missing `durum`
    becomes "Depoda"; so does an explicit null, because the ORM leaves a
    null attribute out of the INSERT and the column default fills it in.
  */
  function NewEquipment(ad: string, data: Payload): (r: Equipment)
    ensures r.kategori == ad
    ensures r.durum != JNull
    ensures "durum" in data && data["durum"] != JNull ==> r.durum == data["durum"]
    ensures ("durum" !in data || data["durum"] == JNull) ==> r.durum == JStr(Depoda)
    ensures r.marka == Get(data, "marka", JNull) && r.model == Get(data, "model", JNull)
    ensures r.seriNo == Get(data, "seri_no", JNull) && r.barkod == Get(data, "barkod", JNull)
    ensures r.notlar == Get(data, "notlar", JNull)
    ensures r.teminFiyati == Get(data, "temin_fiyati", JNull) && r.tedarikci == Get(data, "tedarikci", JNull)
    ensures r.teminTarihi == if Truthy(Get(data, "temin_tarihi", JNull)) then data["temin_tarihi"] else JNull
    ensures r.teminTarihi == JNull || Truthy(r.teminTarihi)
  {
    var t := Get(data, "temin_tarihi", JNull);
    var d := Get(data, "durum", JNull);
    Equipment(
      ad,
      Get(data, "marka", JNull),
      Get(data, "model", JNull),
      Get(data, "seri_no", JNull),
      Get(data, "barkod", JNull),
      if d == JNull then JStr(Depoda) else d,
      Get(data, "notlar", JNull),
      if Truthy(t) then t else JNull,
      Get(data, "temin_fiyati", JNull),
      Get(data, "tedarikci", JNull))
  }

  /** A present, truthy `temin_tarihi` that is not text, which `.replace` rejects. */
  predicate BadDate(data: Payload): (r: bool)
    ensures r ==> "temin_tarihi" in data && !data["temin_tarihi"].JStr?
    ensures "temin_tarihi" in data && data["temin_tarihi"].JStr? ==> !r
    ensures !Truthy(Get(data, "temin_tarihi", JNull)) ==> !r
  {
    "temin_tarihi" in data && Truthy(data["temin_tarihi"]) && !data["temin_tarihi"].JStr?
  }

  /**
    The `if 'x' in data` assignments of `ekipman_guncelle`: each field named
    in the payload takes the payload's value, every other field keeps its
    own, and `temin_tarihi` changes only when it is present and truthy.
  */
  function Patch(e: Equipment, data: Payload): (r: Equipment)
    ensures "kategori" in data && data["kategori"].JStr? ==> r.kategori == data["kategori"].s
    ensures !("kategori" in data && data["kategori"].JStr?) ==> r.kategori == e.kategori
    ensures r.marka == Get(data, "marka", e.marka)
    ensures r.model == Get(data, "model", e.model)
    ensures r.seriNo == Get(data, "seri_no", e.seriNo)
    ensures r.barkod == Get(data, "barkod", e.barkod)
    ensures r.durum == Get(data, "durum", e.durum)
    ensures r.notlar == Get(data, "notlar", e.notlar)
    ensures r.teminTarihi == if "temin_tarihi" in data && Truthy(data["temin_tarihi"]) then data["temin_tarihi"] else e.teminTarihi
    ensures r.teminFiyati == Get(data, "temin_fiyati", e.teminFiyati)
    ensures r.tedarikci == Get(data, "tedarikci", e.tedarikci)
  {
    var kategori := if "kategori" in data && data["kategori"].JStr? then data["kategori"].s else e.kategori;
    var tarih := if "temin_tarihi" in data && Truthy(data["temin_tarihi"]) then data["temin_tarihi"] else e.teminTarihi;
    Equipment(
      kategori,
      Get(data, "marka", e.marka),
      Get(data, "model", e.model),
      Get(data, "seri_no", e.seriNo),
      Get(data, "barkod", e.barkod),
      Get(data, "durum", e.durum),
      Get(data, "notlar", e.notlar),
      tarih,
      Get(data, "temin_fiyati", e.teminFiyati),
      Get(data, "tedarikci", e.tedarikci))
  }

  /** Applying the same update twice has the effect of applying it once. */
  lemma PatchIdempotent(e: Equipment, data: Payload)
    ensures Patch(Patch(e, data), data) == Patch(e, data)
  {
  }

  /** The integer id a JSON value names, when it is a whole number. */
  function AsId(v: Json): Option<int> {
    if v.JNum? && v.x.Floor as real == v.x then Some(v.x.Floor) else None
  }

  /** The state of an equipment after a movement of kind `tip`: out means in use, return means in stock. */
  function StatusAfter(tip: Json, durum: Json): (r: Json)
    ensures tip == JStr(Cikis) ==> r == JStr(Kullanimda)
    ensures tip == JStr(Iade) ==> r == JStr(Depoda)
    ensures tip != JStr(Cikis) && tip != JStr(Iade) ==> r == durum
  {
    if tip == JStr(Cikis) then JStr(Kullanimda)
    else if tip == JStr(Iade) then JStr(Depoda)
    else durum
  }

  /** The movement `hareket_ekle` records; the optional fields default to null. */
  function NewMovement(id: nat, ekipmanId: int, tip: Json, data: Payload): (m: Movement)
    ensures m.id == id && m.ekipmanId == ekipmanId && m.hareketTipi == tip
    ensures m.kullaniciAdi == Get(data, "kullanici_adi", JNull)
    ensures m.kullaniciPersonelNo == Get(data, "kullanici_personel_no", JNull)
    ensures m.birim == Get(data, "birim", JNull) && m.lokasyon == Get(data, "lokasyon", JNull)
    ensures m.aciklama == Get(data, "aciklama", JNull)
    ensures m.teslimAlan == Get(data, "teslim_alan", JNull) && m.onaylayan == Get(data, "onaylayan", JNull)
  {
    Movement(
      id, ekipmanId, tip,
      Get(data, "kullanici_adi", JNull),
      Get(data, "kullanici_personel_no", JNull),
      Get(data, "birim", JNull),
      Get(data, "lokasyon", JNull),
      Get(data, "aciklama", JNull),
      Get(data, "teslim_alan", JNull),
      Get(data, "onaylayan", JNull))
  }

  /** The movements left after the cascade delete of equipment `id`. */
  function WithoutEquipment(ms: seq<Movement>, id: int): (r: seq<Movement>)
    ensures |r| <= |ms|
    ensures forall m :: m in r <==> m in ms && m.ekipmanId != id
  {
    if ms == [] then []
    else (if ms[0].ekipmanId != id then [ms[0]] else []) + WithoutEquipment(ms[1..], id)
  }

  /** The three tables, with the id each table hands out next. */
  class Store {
    var categories: map<nat, Category>
    var equipment: map<nat, Equipment>
    var movements: seq<Movement>
    var nextCategoryId: nat
    var nextEquipmentId: nat
    var nextMovementId: nat

    /** The table constraints, and every id in use is below the next one handed out. */
    ghost predicate Valid()
      reads this
    {
      UniqueNames(categories)
      && UniqueCodes(equipment)
      && (forall i :: i in categories ==> i < nextCategoryId)
      && (forall i :: i in equipment ==> i < nextEquipmentId)
      && (forall k :: 0 <= k < |movements| ==> movements[k].id < nextMovementId)
    }

    /** An empty database. */
    constructor ()
      ensures Valid()
      ensures categories == map[] && equipment == map[] && movements == []
    {
      categories, equipment, movements := map[], map[], [];
      nextCategoryId, nextEquipmentId, nextMovementId := 1, 1, 1;
    }

    /** Adds a category whose id is the next one, when `name` is not taken. */
    method InsertCategory(name: string, aciklama: Json) returns (id: nat)
      requires Valid()
      requires !HasCategory(categories, name)
      modifies this`categories, this`nextCategoryId
      ensures Valid()
      ensures id == old(nextCategoryId) && nextCategoryId == id + 1
      ensures categories == old(categories)[id := Category(name, aciklama)]
    {
      id := nextCategoryId;
      categories := categories[id := Category(name, aciklama)];
      nextCategoryId := id + 1;
    }

    /**
      `add_kategori`: the name is trimmed; an empty or non-text name and a
      name already present are refused with nothing changed; otherwise that
      one category is added.
    */
    method AddCategory(data: Payload) returns (reply: Reply)
      requires Valid()
      modifies this
      ensures Valid()
      ensures reply.Created? || reply.Failed?
      ensures reply.Failed? ==> unchanged(this)
      ensures RequestedName(data).Failure? ==> reply == Failed(RequestedName(data).error)
      ensures RequestedName(data).Success? && HasCategory(old(categories), RequestedName(data).value) ==>
        reply == Failed(NameExists(RequestedName(data).value))
      ensures RequestedName(data).Success? && !HasCategory(old(categories), RequestedName(data).value) ==>
        reply.Created? && StatusCode(reply) == 201
      ensures reply.Created? ==>
        RequestedName(data).Success? && !HasCategory(old(categories), RequestedName(data).value)
        && reply.id == old(nextCategoryId) && nextCategoryId == reply.id + 1
        && categories == old(categories)[reply.id := Category(RequestedName(data).value, Get(data, "aciklama", JStr("")))]
        && equipment == old(equipment) && movements == old(movements)
        && nextEquipmentId == old(nextEquipmentId) && nextMovementId == old(nextMovementId)
    {
      var name := RequestedName(data);
      if name.Failure? {
        return Failed(name.error);
      }
      var ad := name.value;
      if HasCategory(categories, ad) {
        return Failed(NameExists(ad));
      }
      var id := InsertCategory(ad, Get(data, "aciklama", JStr("")));
      return Created(id);
    }

    /**
      `delete_kategori`: an unknown id is refused (the 404 is raised inside
      the `try` and answered as 400), so is a category that some equipment
      still names; otherwise only that category goes.
    */
    method DeleteCategory(id: nat) returns (reply: Reply)
      requires Valid()
      modifies this
      ensures Valid()
      ensures reply == Done || reply.Failed?
      ensures reply.Failed? ==> unchanged(this)
      ensures id !in old(categories) ==> reply == Failed(CategoryNotFound) && StatusCode(reply) == 400
      ensures id in old(categories) && UsageCount(old(equipment), old(categories)[id].ad) == 0 ==> reply == Done
      ensures id in old(categories) && UsageCount(old(equipment), old(categories)[id].ad) > 0 ==>
        reply == Failed(CategoryInUse(UsageCount(old(equipment), old(categories)[id].ad)))
      ensures reply == Done ==>
        id in old(categories) && (forall i :: i in old(equipment) ==> old(equipment)[i].kategori != old(categories)[id].ad)
        && categories == old(categories) - {id}
        && equipment == old(equipment) && movements == old(movements)
        && nextCategoryId == old(nextCategoryId) && nextEquipmentId == old(nextEquipmentId)
        && nextMovementId == old(nextMovementId)
    {
      if id !in categories {
        return Failed(CategoryNotFound);
      }
      var count := UsageCount(equipment, categories[id].ad);
      if count > 0 {
        return Failed(CategoryInUse(count));
      }
      categories := categories - {id};
      return Done;
    }

    /**
      `ekipman_ekle`: a missing, null or non-text `kategori` is refused with
      nothing changed. Otherwise the category is created when missing and
      committed at once, so it stays even when the equipment insert then
      fails on a date that is not text or on a serial number or barcode
      already in use.
    */
    method AddEquipment(data: Payload) returns (reply: Reply)
      requires Valid()
      modifies this
      ensures Valid()
      ensures reply.Created? || reply.Failed?
      ensures movements == old(movements) && nextMovementId == old(nextMovementId)
      ensures "kategori" !in data ==> reply == Failed(MissingKey("kategori")) && unchanged(this)
      ensures "kategori" in data && data["kategori"] == JNull ==> reply == Failed(NullValue("kategori")) && unchanged(this)
      ensures "kategori" in data && data["kategori"] != JNull && !data["kategori"].JStr? ==>
        reply == Failed(NotAString("kategori")) && unchanged(this)
      ensures "kategori" in data && data["kategori"].JStr? ==>
        var ad := data["kategori"].s;
        var e := NewEquipment(ad, data);
        && (if HasCategory(old(categories), ad)
            then categories == old(categories) && nextCategoryId == old(nextCategoryId)
            else (categories == old(categories)[old(nextCategoryId) := Category(ad, JStr(UserDefined))]
                  && nextCategoryId == old(nextCategoryId) + 1))
        && (if BadDate(data) then reply == Failed(NotAString("temin_tarihi"))
            else if SerialTaken(old(equipment), e.seriNo) then reply == Failed(NotUnique("seri_no"))
            else if BarcodeTaken(old(equipment), e.barkod) then reply == Failed(NotUnique("barkod"))
            else reply == Created(old(nextEquipmentId)))
        && (reply.Failed? ==> equipment == old(equipment) && nextEquipmentId == old(nextEquipmentId))
        && (reply.Created? ==> equipment == old(equipment)[reply.id := e] && nextEquipmentId == reply.id + 1)
    {
      if "kategori" !in data {
        return Failed(MissingKey("kategori"));
      }
      var raw := data["kategori"];
      if raw == JNull {
        return Failed(NullValue("kategori"));
      }
      if !raw.JStr? {
        return Failed(NotAString("kategori"));
      }
      var ad := raw.s;
      if !HasCategory(categories, ad) {
        var _ := InsertCategory(ad, JStr(UserDefined));
      }
      if BadDate(data) {
        return Failed(NotAString("temin_tarihi"));
      }
      var e := NewEquipment(ad, data);
      if SerialTaken(equipment, e.seriNo) {
        return Failed(NotUnique("seri_no"));
      }
      if BarcodeTaken(equipment, e.barkod) {
        return Failed(NotUnique("barkod"));
      }
      var id := nextEquipmentId;
      equipment := equipment[id := e];
      nextEquipmentId := id + 1;
      return Created(id);
    }

    /**
      `ekipman_guncelle`: an unknown id answers 404. A date that is not text,
      a null or non-text category, or a serial number or barcode held by
      another record is refused with nothing changed. Otherwise only that
      record changes, and only in the fields the payload names.
    */
    method UpdateEquipment(id: nat, data: Payload) returns (reply: Reply)
      requires Valid()
      modifies this
      ensures Valid()
      ensures reply == Done || reply == NotFound || reply.Failed?
      ensures reply != Done ==> unchanged(this)
      ensures id !in old(equipment) ==> reply == NotFound && StatusCode(reply) == 404
      ensures id in old(equipment) ==>
        var e := Patch(old(equipment)[id], data);
        var others := old(equipment) - {id};
        reply ==
          if BadDate(data) then Failed(NotAString("temin_tarihi"))
          else if "kategori" in data && data["kategori"] == JNull then Failed(NullValue("kategori"))
          else if "kategori" in data && !data["kategori"].JStr? then Failed(NotAString("kategori"))
          else if SerialTaken(others, e.seriNo) then Failed(NotUnique("seri_no"))
          else if BarcodeTaken(others, e.barkod) then Failed(NotUnique("barkod"))
          else Done
      ensures reply == Done ==>
        equipment == old(equipment)[id := Patch(old(equipment)[id], data)]
        && categories == old(categories) && movements == old(movements)
        && nextCategoryId == old(nextCategoryId) && nextEquipmentId == old(nextEquipmentId)
        && nextMovementId == old(nextMovementId)
    {
      if id !in equipment {
        return NotFound;
      }
      if BadDate(data) {
        return Failed(NotAString("temin_tarihi"));
      }
      if "kategori" in data && data["kategori"] == JNull {
        return Failed(NullValue("kategori"));
      }
      if "kategori" in data && !data["kategori"].JStr? {
        return Failed(NotAString("kategori"));
      }
      var e := Patch(equipment[id], data);
      var others := equipment - {id};
      if SerialTaken(others, e.seriNo) {
        return Failed(NotUnique("seri_no"));
      }
      if BarcodeTaken(others, e.barkod) {
        return Failed(NotUnique("barkod"));
      }
      ReplaceKeepsCodesUnique(equipment, id, e);
      equipment := equipment[id := e];
      return Done;
    }

    /** `ekipman_sil`: an unknown id answers 404; otherwise the record and its movements go. */
    method DeleteEquipment(id: nat) returns (reply: Reply)
      requires Valid()
      modifies this
      ensures Valid()
      ensures reply == Done || reply == NotFound
      ensures id !in old(equipment) <==> reply == NotFound
      ensures id !in old(equipment) ==> StatusCode(reply) == 404
      ensures reply == NotFound ==> unchanged(this)
      ensures reply == Done ==>
        equipment == old(equipment) - {id}
        && movements == WithoutEquipment(old(movements), id)
        && categories == old(categories)
        && nextCategoryId == old(nextCategoryId) && nextEquipmentId == old(nextEquipmentId)
        && nextMovementId == old(nextMovementId)
    {
      if id !in equipment {
        return NotFound;
      }
      equipment := equipment - {id};
      movements := WithoutEquipment(movements, id);
      return Done;
    }

    /**
      `hareket_ekle`: the movement is recorded and, for an out ("Çıkış") or
      return ("İade") movement, the equipment's state becomes "Kullanımda"
      or "Depoda"; other kinds leave it alone. Missing keys, an id that is
      not a whole number, a null kind, and an out or return movement for an
      unknown equipment (the attribute access on None) are refused with
      nothing changed.
    */
    method AddMovement(data: Payload) returns (reply: Reply)
      requires Valid()
      modifies this
      ensures Valid()
      ensures reply.Created? || reply.Failed?
      ensures reply.Failed? ==> unchanged(this)
      ensures "ekipman_id" !in data ==> reply == Failed(MissingKey("ekipman_id"))
      ensures "ekipman_id" in data && "hareket_tipi" !in data ==> reply == Failed(MissingKey("hareket_tipi"))
      ensures "ekipman_id" in data && "hareket_tipi" in data ==>
        var eid, tip := AsId(data["ekipman_id"]), data["hareket_tipi"];
        reply.Failed? <==>
          || eid.None?
          || ((tip == JStr(Cikis) || tip == JStr(Iade)) && !(eid.value >= 0 && eid.value as nat in old(equipment)))
          || tip == JNull
      ensures reply.Created? ==>
        var eid, tip := AsId(data["ekipman_id"]).value, data["hareket_tipi"];
        reply.id == old(nextMovementId) && nextMovementId == reply.id + 1
        && movements == old(movements) + [NewMovement(reply.id, eid, tip, data)]
        && equipment == (if tip == JStr(Cikis) || tip == JStr(Iade)
                         then old(equipment)[eid as nat := old(equipment)[eid as nat].(durum := StatusAfter(tip, old(equipment)[eid as nat].durum))]
                         else old(equipment))
        && categories == old(categories)
        && nextCategoryId == old(nextCategoryId) && nextEquipmentId == old(nextEquipmentId)
    {
      if "ekipman_id" !in data {
        return Failed(MissingKey("ekipman_id"));
      }
      if "hareket_tipi" !in data {
        return Failed(MissingKey("hareket_tipi"));
      }
      var eid := AsId(data["ekipman_id"]);
      if eid.None? {
        return Failed(NotAnId);
      }
      var tip := data["hareket_tipi"];
      if tip == JStr(Cikis) || tip == JStr(Iade) {
        if !(eid.value >= 0 && eid.value as nat in equipment) {
          return Failed(EquipmentNotFound);
        }
        var k := eid.value as nat;
        equipment := equipment[k := equipment[k].(durum := StatusAfter(tip, equipment[k].durum))];
      } else if tip == JNull {
        return Failed(NullValue("hareket_tipi"));
      }
      var id := nextMovementId;
      movements := movements + [NewMovement(id, eid.value, tip, data)];
      nextMovementId := id + 1;
      return Created(id);
    }
  }
}
