/**
 Product mappings behind their Redis cache: `MappingService`, and the admin edits that change the
 tables and invalidate the cache.
 */
module MappingCache {
  import opened Common
  import opened BundleSplit
  import opened OrderLines

  const CACHE_TTL := 3600

  /** A row of product_mapping. */
  datatype Row = Row(
    platform: string,
    platformProductId: string,
    platformSkuId: Option<string>,
    odooProductId: int,
    odooSku: string,
    mappingType: string,
    isActive: bool)

  /** product_mapping and, by mapping, product_bundle_components. */
  datatype Tables = Tables(rows: map<MappingId, Row>, components: map<MappingId, seq<Component>>)

  /** `_k_mapping` and `_k_bundle_components`. */
  datatype Key = MappingKey(platform: string, skuId: string) | BundleKey(id: MappingId)

  /** What is cached: a mapping with its id, or a component list. */
  datatype Value = MappingValue(id: MappingId, row: Row) | ComponentsValue(components: seq<Component>)

  datatype Entry = Entry(value: Value, expiry: int)

  datatype State = State(tables: Tables, cache: map<Key, Entry>, now: int)

  predicate Matches(row: Row, platform: string, skuId: string) {
    row.platform == platform && row.platformSkuId == Some(skuId) && row.isActive
  }

  /** The unique constraint on (platform, platform_sku_id). */
  predicate SkusUnique(rows: map<MappingId, Row>) {
    forall a, b :: a in rows && b in rows && a != b && rows[a].platformSkuId.Some? ==>
      rows[a].platform != rows[b].platform || rows[a].platformSkuId != rows[b].platformSkuId
  }

  function ComponentsIn(t: Tables, id: MappingId): seq<Component> {
    if id in t.components then t.components[id] else []
  }

  /** The database's answer for a cache key; a missing mapping is `None`. */
  ghost function Answer(t: Tables, key: Key): Option<Value> {
    match key
    case MappingKey(platform, skuId) =>
      if id :| id in t.rows && Matches(t.rows[id], platform, skuId) then Some(MappingValue(id, t.rows[id])) else None
    case BundleKey(id) => Some(ComponentsValue(ComponentsIn(t, id)))
  }

  lemma AnswerIsTheRow(t: Tables, id: MappingId, platform: string, skuId: string)
    requires SkusUnique(t.rows) && id in t.rows && Matches(t.rows[id], platform, skuId)
    ensures Answer(t, MappingKey(platform, skuId)) == Some(MappingValue(id, t.rows[id]))
  {
  }

  predicate Cached(s: State, key: Key) {
    key in s.cache && s.now < s.cache[key].expiry
  }

  // ------------------------------------------------------------------------------------------
  // Reads
  // ------------------------------------------------------------------------------------------

  /** `get_by_platform_sku` and `get_bundle_components`: what the caller gets. */
  ghost function ReadResult(s: State, key: Key): Option<Value> {
    if Cached(s, key) then Some(s.cache[key].value) else Answer(s.tables, key)
  }

  /** The cache after a read: an answer found in the tables is stored for an hour. */
  ghost function ReadState(s: State, key: Key): State {
    if Cached(s, key) || Answer(s.tables, key).None? then s
    else s.(cache := s.cache[key := Entry(Answer(s.tables, key).value, s.now + CACHE_TTL)])
  }

  // ------------------------------------------------------------------------------------------
  // Edits
  // ------------------------------------------------------------------------------------------

  /** The submitted form; quantities that are not numbers are `None`. */
  datatype Form = Form(
    mappingId: Option<MappingId>,
    platform: string,
    platformProductId: string,
    platformSkuId: string,
    odooProductId: int,
    odooSku: string,
    mappingType: string,
    isActive: bool,
    componentSkus: seq<string>,
    componentQtys: seq<Option<int>>)

  datatype EditError = BadRequest | NotFound | Conflict

  function RowOf(form: Form): Row {
    Row(form.platform, form.platformProductId, if form.platformSkuId == "" then None else Some(form.platformSkuId),
        form.odooProductId, form.odooSku, form.mappingType, form.isActive)
  }

  predicate IsSpace(c: char) { c in {' ', '\t', '\n', '\r'} }

  function TrimLeft(s: string): string {
    if s != "" && IsSpace(s[0]) then TrimLeft(s[1..]) else s
  }

  function TrimRight(s: string): string {
    if s != "" && IsSpace(s[|s| - 1]) then TrimRight(s[..|s| - 1]) else s
  }

  function Strip(s: string): string { TrimRight(TrimLeft(s)) }

  function QuantityFrom(qty: Option<int>): int {
    if qty.Some? && qty.value > 1 then qty.value else 1
  }

  /** The component rows added for the form: pairs up to the shorter list, blank SKUs skipped. */
  function FormComponents(skus: seq<string>, qtys: seq<Option<int>>): (comps: seq<Component>)
    ensures Positive(comps)
  {
    if skus == [] || qtys == [] then []
    else
      (if Strip(skus[0]) == "" then [] else [Component(Strip(skus[0]), QuantityFrom(qtys[0]))]) +
      FormComponents(skus[1..], qtys[1..])
  }

  function SavedId(form: Form, freshId: MappingId): MappingId {
    if form.mappingId.Some? then form.mappingId.value else freshId
  }

  function SaveError(t: Tables, form: Form, freshId: MappingId): Option<EditError> {
    if form.mappingType !in {"simple", "bundle"} || form.platform !in {"shopee", "lazada", "tiktok"} then Some(BadRequest)
    else if form.mappingId.Some? && form.mappingId.value !in t.rows then Some(NotFound)
    else if !SkusUnique(t.rows[SavedId(form, freshId) := RowOf(form)]) then Some(Conflict)
    else None
  }

  function SavedTables(t: Tables, form: Form, freshId: MappingId): Tables {
    var id := SavedId(form, freshId);
    Tables(t.rows[id := RowOf(form)],
           t.components[id := if form.mappingType == "bundle" then FormComponents(form.componentSkus, form.componentQtys) else []])
  }

  function SkuKey(row: Row): set<Key> {
    if row.platformSkuId.Some? then {MappingKey(row.platform, row.platformSkuId.value)} else {}
  }

  /** The keys `products_save` deletes after its commit. */
  function SaveInvalidates(t: Tables, form: Form, freshId: MappingId): set<Key> {
    var id := SavedId(form, freshId);
    (if form.mappingId.Some? && id in t.rows then SkuKey(t.rows[id]) else {}) + SkuKey(RowOf(form)) + {BundleKey(id)}
  }

  function SaveState(s: State, form: Form, freshId: MappingId): State {
    if SaveError(s.tables, form, freshId).Some? then s
    else s.(tables := SavedTables(s.tables, form, freshId),
            cache := s.cache - SaveInvalidates(s.tables, form, freshId))
  }

  function DeleteState(s: State, id: MappingId): State {
    if id !in s.tables.rows then s
    else
      s.(tables := Tables(Without(s.tables.rows, id), Without(s.tables.components, id)),
         cache := s.cache - (SkuKey(s.tables.rows[id]) + {BundleKey(id)}))
  }

  // ------------------------------------------------------------------------------------------
  // What reads and edits do, in the forms of the tables
  // ------------------------------------------------------------------------------------------

  /** A mapping is answered exactly if it is an active row of that platform and SKU; a component list always is. */
  lemma AnswersAre(t: Tables, platform: string, skuId: string, id: MappingId, row: Row)
    requires SkusUnique(t.rows)
    ensures Answer(t, MappingKey(platform, skuId)) == Some(MappingValue(id, row)) <==>
            id in t.rows && t.rows[id] == row && row.isActive && row.platform == platform && row.platformSkuId == Some(skuId)
    ensures Answer(t, BundleKey(id)) == Some(ComponentsValue(if id in t.components then t.components[id] else []))
  {
    if id in t.rows && Matches(t.rows[id], platform, skuId) {
      AnswerIsTheRow(t, id, platform, skuId);
    }
  }

  /** An answer that is read from the tables is served from the cache for one hour, and asked for again then. */
  lemma ReadIsStored(s: State, key: Key, later: int)
    requires !Cached(s, key) && Answer(s.tables, key).Some? && later >= s.now
    ensures var s' := ReadState(s, key).(now := later);
            && (Cached(s', key) <==> later < s.now + 3600)
            && key in s'.cache && Some(s'.cache[key].value) == Answer(s.tables, key)
            && s'.tables == s.tables && s'.cache - {key} == s.cache - {key}
  {
  }

  /** A saved row is the submitted form; no other row, component list or cached key is touched. */
  lemma SavedIs(s: State, form: Form, freshId: MappingId)
    requires SaveError(s.tables, form, freshId).None? && freshId !in s.tables.rows
    ensures var s' := SaveState(s, form, freshId);
            var id := if form.mappingId.Some? then form.mappingId.value else freshId;
            && s'.tables.rows.Keys == s.tables.rows.Keys + {id} && s'.now == s.now
            && (var row := s'.tables.rows[id];
                && row.platform == form.platform && row.platformProductId == form.platformProductId
                && (if form.platformSkuId == "" then row.platformSkuId.None? else row.platformSkuId == Some(form.platformSkuId))
                && row.odooProductId == form.odooProductId && row.odooSku == form.odooSku
                && row.mappingType == form.mappingType && row.isActive == form.isActive)
            && (form.mappingType == "simple" ==> ComponentsIn(s'.tables, id) == [])
            && (forall other :: other != id && other in s.tables.rows ==> s'.tables.rows[other] == s.tables.rows[other])
            && (forall other :: other != id ==> ComponentsIn(s'.tables, other) == ComponentsIn(s.tables, other))
            && (forall key :: key in s'.cache ==> key in s.cache && s'.cache[key] == s.cache[key])
            && (forall key :: key in s.cache && key !in s'.cache ==>
                  || key == BundleKey(id)
                  || key == MappingKey(form.platform, form.platformSkuId)
                  || (id in s.tables.rows && s.tables.rows[id].platformSkuId.Some? &&
                        key == MappingKey(s.tables.rows[id].platform, s.tables.rows[id].platformSkuId.value)))
  {
  }

  /** A save is refused exactly for an unknown type or platform, an unknown row, or a SKU that another row has. */
  lemma RefusedExactly(t: Tables, form: Form, freshId: MappingId)
    requires SkusUnique(t.rows) && freshId !in t.rows
    ensures var id := if form.mappingId.Some? then form.mappingId.value else freshId;
            var bad := form.mappingType !in {"simple", "bundle"} || form.platform !in {"shopee", "lazada", "tiktok"};
            var unknown := form.mappingId.Some? && id !in t.rows;
            && (SaveError(t, form, freshId) == Some(BadRequest) <==> bad)
            && (SaveError(t, form, freshId) == Some(NotFound) <==> !bad && unknown)
            && (SaveError(t, form, freshId) == Some(Conflict) <==>
                  !bad && !unknown && form.platformSkuId != "" &&
                  exists other :: other in t.rows && other != id && t.rows[other].platform == form.platform &&
                                  t.rows[other].platformSkuId == Some(form.platformSkuId))
  {
    var id := SavedId(form, freshId);
    var rows := t.rows[id := RowOf(form)];
    if !SkusUnique(rows) {
      var a, b :| a in rows && b in rows && a != b && rows[a].platformSkuId.Some? &&
                  rows[a].platform == rows[b].platform && rows[a].platformSkuId == rows[b].platformSkuId;
      var other := if a == id then b else a;
      assert a == id || b == id;
      assert other in t.rows && other != id && t.rows[other].platform == form.platform;
    }
    if form.platformSkuId != "" {
      forall other | other in t.rows && other != id && t.rows[other].platform == form.platform &&
                     t.rows[other].platformSkuId == Some(form.platformSkuId)
        ensures !SkusUnique(rows)
      {
        assert other in rows && id in rows;
      }
    }
  }

  /** A deleted row is gone with its components, and its keys with it; everything else stays. */
  lemma DeletedIs(s: State, id: MappingId)
    requires id in s.tables.rows
    ensures var s' := DeleteState(s, id);
            && s'.tables.rows.Keys == s.tables.rows.Keys - {id} && ComponentsIn(s'.tables, id) == []
            && (forall other :: other in s'.tables.rows ==> s'.tables.rows[other] == s.tables.rows[other])
            && (forall other :: other != id ==> ComponentsIn(s'.tables, other) == ComponentsIn(s.tables, other))
            && (forall key :: key in s'.cache ==> key in s.cache && s'.cache[key] == s.cache[key])
            && (forall key :: key in s.cache && key !in s'.cache ==>
                  || key == BundleKey(id)
                  || (s.tables.rows[id].platformSkuId.Some? &&
                        key == MappingKey(s.tables.rows[id].platform, s.tables.rows[id].platformSkuId.value)))
  {
  }

  predicate AllSpace(s: string) {
    forall c :: c in s ==> c == ' ' || c == '\t' || c == '\n' || c == '\r'
  }

  lemma {:induction false} TrimLeftIs(s: string) returns (front: string)
    ensures s == front + TrimLeft(s) && AllSpace(front)
    ensures TrimLeft(s) != "" ==> !IsSpace(TrimLeft(s)[0])
    decreases |s|
  {
    front := "";
    if s != "" && IsSpace(s[0]) {
      front := TrimLeftIs(s[1..]);
      front := [s[0]] + front;
    }
  }

  lemma {:induction false} TrimRightIs(s: string) returns (back: string)
    ensures s == TrimRight(s) + back && AllSpace(back)
    ensures TrimRight(s) != "" ==> !IsSpace(TrimRight(s)[|TrimRight(s)| - 1])
    decreases |s|
  {
    back := "";
    if s != "" && IsSpace(s[|s| - 1]) {
      back := TrimRightIs(s[..|s| - 1]);
      back := back + [s[|s| - 1]];
    }
  }

  /** Blanks, tabs and line ends go from both ends of a SKU, and nothing else goes. */
  lemma StripExactly(s: string) returns (front: string, back: string)
    ensures s == front + Strip(s) + back && AllSpace(front) && AllSpace(back)
    ensures Strip(s) != "" ==> !AllSpace([Strip(s)[0]]) && !AllSpace([Strip(s)[|Strip(s)| - 1]])
  {
    front := TrimLeftIs(s);
    var rest := TrimLeft(s);
    back := TrimRightIs(rest);
    if Strip(s) != "" {
      assert Strip(s)[0] == rest[0];
      assert Strip(s)[0] in [Strip(s)[0]] && Strip(s)[|Strip(s)| - 1] in [Strip(s)[|Strip(s)| - 1]];
    }
  }

  /** The component that one pair of the form becomes: its stripped SKU, in the given number, but at least once. */
  lemma PairsBecomeComponents(sku: string, qty: Option<int>, skus: seq<string>, qtys: seq<Option<int>>)
    ensures var rest := FormComponents(skus, qtys);
            var all := FormComponents([sku] + skus, [qty] + qtys);
            && (Strip(sku) == "" ==> all == rest)
            && (Strip(sku) != "" && qty.Some? && qty.value >= 1 ==> all == [Component(Strip(sku), qty.value)] + rest)
            && (Strip(sku) != "" && (qty.None? || qty.value < 1) ==> all == [Component(Strip(sku), 1)] + rest)
    ensures FormComponents(skus, []) == [] && FormComponents([], qtys) == []
  {
    assert ([sku] + skus)[1..] == skus && ([qty] + qtys)[1..] == qtys;
  }

  // ------------------------------------------------------------------------------------------
  // The service
  // ------------------------------------------------------------------------------------------

  predicate Sells(row: Row, platform: string, sku: string) {
    row.platform == platform && row.odooSku == sku && row.isActive
  }

  predicate Uses(t: Tables, id: MappingId, platform: string, sku: string)
    requires id in t.rows
  {
    t.rows[id].platform == platform && t.rows[id].isActive && exists c :: c in ComponentsIn(t, id) && c.sku == sku
  }

  class MappingService {
    var rows: map<MappingId, Row>
    var components: map<MappingId, seq<Component>>
    /** Redis. */
    var cache: map<Key, Entry>

    ghost function View(now: int): State
      reads this
    {
      State(Tables(rows, components), cache, now)
    }

    constructor ()
      ensures rows == map[] && components == map[] && cache == map[]
    {
      rows, components, cache := map[], map[], map[];
    }

    /** `get_by_platform_sku`. */
    method GetByPlatformSku(platform: string, skuId: string, now: int) returns (r: Option<Value>)
      requires SkusUnique(rows)
      modifies this`cache
      ensures r == ReadResult(old(View(now)), MappingKey(platform, skuId))
      ensures View(now) == ReadState(old(View(now)), MappingKey(platform, skuId))
    {
      var key := MappingKey(platform, skuId);
      if key in cache && now < cache[key].expiry {
        return Some(cache[key].value);
      }
      if id :| id in rows && Matches(rows[id], platform, skuId) {
        AnswerIsTheRow(Tables(rows, components), id, platform, skuId);
        var data := MappingValue(id, rows[id]);
        cache := cache[key := Entry(data, now + CACHE_TTL)];
        return Some(data);
      }
      return None;
    }

    /** `get_bundle_components`. */
    method GetBundleComponents(id: MappingId, now: int) returns (r: Option<Value>)
      modifies this`cache
      ensures r == ReadResult(old(View(now)), BundleKey(id))
      ensures View(now) == ReadState(old(View(now)), BundleKey(id))
    {
      var key := BundleKey(id);
      if key in cache && now < cache[key].expiry {
        return Some(cache[key].value);
      }
      var data := ComponentsValue(if id in components then components[id] else []);
      cache := cache[key := Entry(data, now + CACHE_TTL)];
      return Some(data);
    }

    /** `invalidate`. */
    method Invalidate(platform: string, skuId: string)
      modifies this`cache
      ensures cache == old(cache) - {MappingKey(platform, skuId)}
    {
      cache := cache - {MappingKey(platform, skuId)};
    }

    /** The loop of `products_save` over the submitted components. */
    method AddComponents(id: MappingId, skus: seq<string>, qtys: seq<Option<int>>)
      requires id in components && components[id] == []
      modifies this`components
      ensures components == old(components)[id := FormComponents(skus, qtys)]
    {
      var n := if |skus| <= |qtys| then |skus| else |qtys|;
      assert skus[0..] == skus && qtys[0..] == qtys;
      for i := 0 to n
        invariant id in components && components == old(components)[id := components[id]]
        invariant components[id] + FormComponents(skus[i..], qtys[i..]) == FormComponents(skus, qtys)
      {
        assert skus[i..][1..] == skus[i + 1..] && qtys[i..][1..] == qtys[i + 1..];
        ghost var rest := FormComponents(skus[i + 1..], qtys[i + 1..]);
        var sku := Strip(skus[i]);
        if sku == "" {
          assert [] + rest == rest;
          continue;
        }
        var q := if qtys[i].Some? then qtys[i].value else 1;
        if q < 1 {
          q := 1;
        }
        assert components[id] + ([Component(sku, q)] + rest) == (components[id] + [Component(sku, q)]) + rest;
        components := components[id := components[id] + [Component(sku, q)]];
      }
      assert FormComponents(skus[n..], qtys[n..]) == [];
      assert components[id] + [] == components[id];
    }

    /** The cache deletions after a save: the old and the new key, and the component list. */
    method InvalidateSaved(id: MappingId, oldPlatform: string, oldSku: Option<string>, row: Row)
      modifies this`cache
      ensures cache == old(cache) - ((if oldSku.Some? then {MappingKey(oldPlatform, oldSku.value)} else {}) +
                                     SkuKey(row) + {BundleKey(id)})
    {
      if oldSku.Some? && (oldPlatform != row.platform || oldSku != row.platformSkuId) {
        Invalidate(oldPlatform, oldSku.value);
      }
      if row.platformSkuId.Some? {
        Invalidate(row.platform, row.platformSkuId.value);
      }
      cache := cache - {BundleKey(id)};
    }

    /** `products_save`, with Redis up; `freshId` is the id the database gives to a new row. */
    method ProductsSave(form: Form, freshId: MappingId, now: int) returns (error: Option<EditError>)
      requires freshId !in rows
      modifies this
      ensures error == SaveError(old(View(now)).tables, form, freshId)
      ensures View(now) == SaveState(old(View(now)), form, freshId)
    {
      if form.mappingType !in {"simple", "bundle"} {
        return Some(BadRequest);
      }
      if form.platform !in {"shopee", "lazada", "tiktok"} {
        return Some(BadRequest);
      }
      var id, oldSku, oldPlatform := freshId, None, "";
      if form.mappingId.Some? {
        id := form.mappingId.value;
        if id !in rows {
          return Some(NotFound);
        }
        oldSku := rows[id].platformSkuId;
        oldPlatform := rows[id].platform;
      }
      var row := RowOf(form);
      if !SkusUnique(rows[id := row]) {
        return Some(Conflict);
      }
      rows := rows[id := row];
      components := components[id := []];
      if form.mappingType == "bundle" {
        AddComponents(id, form.componentSkus, form.componentQtys);
      }
      InvalidateSaved(id, oldPlatform, oldSku, row);
      return None;
    }

    /** `products_delete`; the components go with the row. */
    method ProductsDelete(id: MappingId, now: int) returns (error: Option<EditError>)
      modifies this
      ensures error == if id in old(rows) then None else Some(NotFound)
      ensures View(now) == DeleteState(old(View(now)), id)
    {
      if id !in rows {
        return Some(NotFound);
      }
      var oldPlatform, oldSku := rows[id].platform, rows[id].platformSkuId;
      rows := Without(rows, id);
      components := Without(components, id);
      if oldSku.Some? {
        Invalidate(oldPlatform, oldSku.value);
      }
      cache := cache - {BundleKey(id)};
      assert cache == old(cache) - (SkuKey(old(rows[id])) + {BundleKey(id)});
      return None;
    }

    /**
     `find_mappings_using_component`, given the answers of its two queries: the mappings that sell the
     SKU itself, and those with a component row for it, possibly repeated.
     */
    method FindMappingsUsingComponent(platform: string, sku: string, direct: seq<MappingId>, joined: seq<MappingId>)
      returns (found: seq<MappingId>)
      requires forall id :: id in direct <==> id in rows && Sells(rows[id], platform, sku)
      requires forall id :: id in joined <==> id in rows && Uses(Tables(rows, components), id, platform, sku)
      ensures Distinct(found)
      ensures forall id :: id in found <==>
                id in rows && rows[id].platform == platform && rows[id].isActive &&
                (rows[id].odooSku == sku || (id in components && exists c :: c in components[id] && c.sku == sku))
    {
      var all := direct + joined;
      var seen: set<MappingId> := {};
      found := [];
      for i := 0 to |all|
        invariant Distinct(found)
        invariant forall id :: id in seen <==> id in all[..i]
        invariant forall id :: id in found <==> id in seen
      {
        assert all[..i + 1] == all[..i] + [all[i]];
        if all[i] in seen {
          continue;
        }
        seen := seen + {all[i]};
        found := found + [all[i]];
      }
      assert all[..|all|] == all;
      assert forall id :: id in all <==> id in direct || id in joined;
    }
  }

  // ------------------------------------------------------------------------------------------
  // Coherence
  // ------------------------------------------------------------------------------------------

  /** Every cached value, expired or not, is what the tables answer now. */
  ghost predicate Coherent(s: State) {
    && SkusUnique(s.tables.rows)
    && forall key :: key in s.cache ==> Answer(s.tables, key) == Some(s.cache[key].value)
  }

  datatype Op =
    | Read(key: Key)
    | Save(form: Form, freshId: MappingId)
    | Delete(id: MappingId)
    | Wait(seconds: nat)
    | Evict(key: Key)

  ghost function Step(s: State, op: Op): State {
    match op
    case Read(key) => ReadState(s, key)
    case Save(form, freshId) => if freshId in s.tables.rows then s else SaveState(s, form, freshId)
    case Delete(id) => DeleteState(s, id)
    case Wait(seconds) => s.(now := s.now + seconds)
    case Evict(key) => s.(cache := s.cache - {key})
  }

  ghost function Run(s: State, ops: seq<Op>): State
    decreases |ops|
  {
    if ops == [] then s else Run(Step(s, ops[0]), ops[1..])
  }

  /** An edit of one row changes no answer but those for the row's keys before and after. */
  lemma EditIsLocal(t: Tables, t': Tables, id: MappingId, key: Key)
    requires SkusUnique(t.rows) && SkusUnique(t'.rows)
    requires forall other :: other != id ==>
               (other in t.rows <==> other in t'.rows) && (other in t.rows ==> t.rows[other] == t'.rows[other]) &&
               ComponentsIn(t, other) == ComponentsIn(t', other)
    requires key != BundleKey(id)
    requires id in t.rows ==> key !in SkuKey(t.rows[id])
    requires id in t'.rows ==> key !in SkuKey(t'.rows[id])
    ensures Answer(t, key) == Answer(t', key)
  {
    if key.MappingKey? {
      if x :| x in t.rows && Matches(t.rows[x], key.platform, key.skuId) {
        assert x != id;
        AnswerIsTheRow(t, x, key.platform, key.skuId);
        AnswerIsTheRow(t', x, key.platform, key.skuId);
      }
    }
  }

  lemma SaveKeepsCoherence(s: State, form: Form, freshId: MappingId)
    requires Coherent(s) && freshId !in s.tables.rows
    ensures Coherent(SaveState(s, form, freshId))
  {
    var s' := SaveState(s, form, freshId);
    if s' != s {
      forall key | key in s'.cache
        ensures Answer(s'.tables, key) == Some(s'.cache[key].value)
      {
        EditIsLocal(s.tables, s'.tables, SavedId(form, freshId), key);
      }
    }
  }

  lemma DeleteKeepsCoherence(s: State, id: MappingId)
    requires Coherent(s)
    ensures Coherent(DeleteState(s, id))
  {
    var s' := DeleteState(s, id);
    if s' != s {
      forall key | key in s'.cache
        ensures Answer(s'.tables, key) == Some(s'.cache[key].value)
      {
        EditIsLocal(s.tables, s'.tables, id, key);
      }
    }
  }

  lemma StepKeepsCoherence(s: State, op: Op)
    requires Coherent(s)
    ensures Coherent(Step(s, op))
  {
    match op
    case Save(form, freshId) =>
      if freshId !in s.tables.rows {
        SaveKeepsCoherence(s, form, freshId);
      }
    case Delete(id) => DeleteKeepsCoherence(s, id);
    case _ =>
  }

  lemma {:induction false} RunKeepsCoherence(s: State, ops: seq<Op>)
    requires Coherent(s)
    ensures Coherent(Run(s, ops))
    decreases |ops|
  {
    if ops != [] {
      StepKeepsCoherence(s, ops[0]);
      RunKeepsCoherence(Step(s, ops[0]), ops[1..]);
    }
  }

  /**
   The cache is invisible: after any sequence of reads, saves (key moves, deactivations and type changes
   included) and deletes that do not overlap, a read returns what the tables answer.
   */
  lemma CacheIsInvisible(tables: Tables, now: int, ops: seq<Op>, key: Key)
    requires SkusUnique(tables.rows)
    ensures var s := Run(State(tables, map[], now), ops);
            ReadResult(s, key) == Answer(s.tables, key)
  {
    RunKeepsCoherence(State(tables, map[], now), ops);
  }
}
