/**
 * The tenant record as stored in the `tenants` table, the polymorphic
 * `tenantables` join rows, and the column conditions (`where`, `whereIn`)
 * that every query of the package is built from. The relational store is
 * replaced by in-memory sequences and sets; its schema constraints become
 * the predicates of `WellFormed`.
 */
module Tenants {
  import opened Wrappers

  /** A value in a query condition or a column. */
  datatype Value = NullV | IntV(i: int) | StrV(s: string) | BoolV(b: bool)

  /** One row of the `tenants` table (the columns the core reads). */
  datatype Tenant = Tenant(
    id: int,
    slug: string,
    domain: Option<string>,
    name: map<string, string>,
    email: string,
    group: Option<string>,
    isActive: bool)

  /** One row of the `tenantables` table: tenant `tenantId` owns entity (`tenantableId`, `tenantableType`). */
  datatype Tenantable = Tenantable(tenantId: int, tenantableId: int, tenantableType: string)

  /** The two tables the core reads and writes. */
  datatype Store = Store(tenants: seq<Tenant>, tenantables: set<Tenantable>)

  function OptionValue(o: Option<string>): Value {
    if o.Some? then StrV(o.value) else NullV
  }

  /** The value of a named column of a tenant row; columns outside the model read as NULL. */
  function ColumnValue(t: Tenant, column: string): Value {
    if column == "id" then IntV(t.id)
    else if column == "slug" then StrV(t.slug)
    else if column == "domain" then OptionValue(t.domain)
    else if column == "email" then StrV(t.email)
    else if column == "group" then OptionValue(t.group)
    else if column == "is_active" then BoolV(t.isActive)
    else NullV
  }

  /** A condition on a tenant row: `where(column, value)` or `whereIn(column, values)`. */
  datatype TenantWhere = Where(column: string, value: Value) | WhereIn(column: string, values: seq<Value>)

  /**
   * `where(c, null)` is `whereNull(c)`, so equality with NullV is exactly right;
   * `whereIn` never matches a NULL column.
   */
  predicate Satisfies(t: Tenant, w: TenantWhere) {
    match w
    case Where(c, v) => ColumnValue(t, c) == v
    case WhereIn(c, vs) => ColumnValue(t, c) != NullV && ColumnValue(t, c) in vs
  }

  predicate SatisfiesAll(t: Tenant, ws: seq<TenantWhere>) {
    forall j :: 0 <= j < |ws| ==> Satisfies(t, ws[j])
  }

  lemma SatisfiesAllSingle(t: Tenant, w: TenantWhere)
    ensures SatisfiesAll(t, [w]) <==> Satisfies(t, w)
  {
    assert [w][0] == w;
  }

  /** `->where(...)->get()`: the rows satisfying every condition, in table order. */
  function Get(ts: seq<Tenant>, ws: seq<TenantWhere>): (r: seq<Tenant>)
    ensures |r| <= |ts|
    ensures forall t :: t in r <==> t in ts && SatisfiesAll(t, ws)
  {
    if ts == [] then []
    else if SatisfiesAll(ts[0], ws) then [ts[0]] + Get(ts[1..], ws)
    else Get(ts[1..], ws)
  }

  /** `->where(...)->first()`: the first row satisfying every condition. */
  function First(ts: seq<Tenant>, ws: seq<TenantWhere>): (r: Option<Tenant>)
    ensures r.Some? ==> r.value in ts && SatisfiesAll(r.value, ws)
    ensures r.None? <==> forall t :: t in ts ==> !SatisfiesAll(t, ws)
  {
    if ts == [] then None
    else if SatisfiesAll(ts[0], ws) then Some(ts[0])
    else First(ts[1..], ws)
  }

  /** `first()` returns the head of `get()`. */
  lemma {:induction false} FirstIsHeadOfGet(ts: seq<Tenant>, ws: seq<TenantWhere>)
    ensures First(ts, ws) == if Get(ts, ws) == [] then None else Some(Get(ts, ws)[0])
  {
    if ts != [] && !SatisfiesAll(ts[0], ws) {
      FirstIsHeadOfGet(ts[1..], ws);
    }
  }

  // Schema constraints of the tenants table.

  ghost predicate UniqueIds(ts: seq<Tenant>) {
    forall i, j :: 0 <= i < |ts| && 0 <= j < |ts| && ts[i].id == ts[j].id ==> i == j
  }

  /** `slug` is unique. */
  ghost predicate UniqueSlugs(ts: seq<Tenant>) {
    forall i, j :: 0 <= i < |ts| && 0 <= j < |ts| && ts[i].slug == ts[j].slug ==> i == j
  }

  /** `domain` is unique where it is not NULL. */
  ghost predicate UniqueDomains(ts: seq<Tenant>) {
    forall i, j :: 0 <= i < |ts| && 0 <= j < |ts| && ts[i].domain.Some? && ts[i].domain == ts[j].domain ==> i == j
  }

  /** Every join row names an existing tenant (the foreign key of `tenantables`). */
  ghost predicate JoinRowsReferToTenants(s: Store) {
    forall a :: a in s.tenantables ==> exists t :: t in s.tenants && t.id == a.tenantId
  }

  ghost predicate WellFormed(s: Store) {
    UniqueIds(s.tenants) && UniqueSlugs(s.tenants) && UniqueDomains(s.tenants) && JoinRowsReferToTenants(s)
  }

  /** With unique slugs, the only tenant that can carry slug `t.slug` is `t` itself. */
  lemma SlugDeterminesTenant(ts: seq<Tenant>, t: Tenant, u: Tenant)
    requires UniqueSlugs(ts) && t in ts && u in ts && t.slug == u.slug
    ensures t == u
  {
    var i :| 0 <= i < |ts| && ts[i] == t;
    var j :| 0 <= j < |ts| && ts[j] == u;
  }

  /** With unique domains, the only tenant that can carry domain `t.domain` is `t` itself. */
  lemma DomainDeterminesTenant(ts: seq<Tenant>, t: Tenant, u: Tenant)
    requires UniqueDomains(ts) && t in ts && u in ts && t.domain.Some? && t.domain == u.domain
    ensures t == u
  {
    var i :| 0 <= i < |ts| && ts[i] == t;
    var j :| 0 <= j < |ts| && ts[j] == u;
  }

  /** `UPDATE tenants SET is_active = b WHERE id = id`. */
  function SetActive(ts: seq<Tenant>, id: int, b: bool): (r: seq<Tenant>)
    ensures |r| == |ts|
    ensures forall k :: 0 <= k < |ts| ==> r[k] == if ts[k].id == id then ts[k].(isActive := b) else ts[k]
  {
    seq(|ts|, k requires 0 <= k < |ts| => if ts[k].id == id then ts[k].(isActive := b) else ts[k])
  }

  /**
   * The row `performUpdate` leaves behind: only the dirty columns, those where
   * the model's attributes differ from the values it was loaded with, are
   * written onto the stored row; the key is never written.
   */
  function WriteDirty(stored: Tenant, original: Tenant, attrs: Tenant): (r: Tenant)
    ensures r.id == stored.id
    ensures attrs == original ==> r == stored
    ensures stored == original ==> r == attrs.(id := stored.id)
  {
    Tenant(stored.id,
      if attrs.slug != original.slug then attrs.slug else stored.slug,
      if attrs.domain != original.domain then attrs.domain else stored.domain,
      if attrs.name != original.name then attrs.name else stored.name,
      if attrs.email != original.email then attrs.email else stored.email,
      if attrs.group != original.group then attrs.group else stored.group,
      if attrs.isActive != original.isActive then attrs.isActive else stored.isActive)
  }

  /** A clean column keeps whatever the table holds now, even when that changed after the model was loaded. */
  lemma CleanColumnsKeepStoredValues(stored: Tenant, original: Tenant, attrs: Tenant)
    ensures attrs.slug == original.slug ==> WriteDirty(stored, original, attrs).slug == stored.slug
    ensures attrs.domain == original.domain ==> WriteDirty(stored, original, attrs).domain == stored.domain
    ensures attrs.email == original.email ==> WriteDirty(stored, original, attrs).email == stored.email
    ensures attrs.group == original.group ==> WriteDirty(stored, original, attrs).group == stored.group
    ensures attrs.isActive == original.isActive ==> WriteDirty(stored, original, attrs).isActive == stored.isActive
    ensures attrs.isActive != original.isActive ==> WriteDirty(stored, original, attrs).isActive == attrs.isActive
  {
  }

  /** `save()` of a loaded model: `UPDATE tenants SET <dirty columns> WHERE id = <original key>`. */
  function SaveDirty(ts: seq<Tenant>, original: Tenant, attrs: Tenant): (r: seq<Tenant>)
    ensures |r| == |ts|
    ensures forall k :: 0 <= k < |ts| ==> r[k].id == ts[k].id
    ensures forall k :: 0 <= k < |ts| && ts[k].id != original.id ==> r[k] == ts[k]
    ensures attrs == original ==> r == ts
  {
    seq(|ts|, k requires 0 <= k < |ts| => if ts[k].id == original.id then WriteDirty(ts[k], original, attrs) else ts[k])
  }

  /** Saving a record loaded from the table whose only change is the flag is the flag update. */
  lemma SaveCleanIsSetActive(ts: seq<Tenant>, t: Tenant, b: bool)
    requires UniqueIds(ts) && t in ts
    ensures SaveDirty(ts, t, t.(isActive := b)) == SetActive(ts, t.id, b)
  {
    var r, r' := SaveDirty(ts, t, t.(isActive := b)), SetActive(ts, t.id, b);
    var i :| 0 <= i < |ts| && ts[i] == t;
    forall k | 0 <= k < |ts|
      ensures r[k] == r'[k]
    {
      if ts[k].id == t.id {
        assert k == i;
      }
    }
  }

  /** The flag update keeps ids, slugs and domains where they were, so the schema constraints survive it. */
  lemma SetActiveKeepsWellFormed(s: Store, id: int, b: bool)
    requires WellFormed(s)
    ensures WellFormed(s.(tenants := SetActive(s.tenants, id, b)))
  {
    var s' := s.(tenants := SetActive(s.tenants, id, b));
    forall a | a in s'.tenantables
      ensures exists t :: t in s'.tenants && t.id == a.tenantId
    {
      var t :| t in s.tenants && t.id == a.tenantId;
      var k :| 0 <= k < |s.tenants| && s.tenants[k] == t;
      assert s'.tenants[k].id == a.tenantId;
    }
  }

  /** The database: both tables, updated in place by the association manager and the tenant model. */
  class Database {
    var store: Store

    constructor(initial: Store)
      ensures store == initial
    {
      store := initial;
    }
  }
}
