/**
 * The tenant model (`Models/Tenant.php`): its query scopes, its validation
 * rule set, the slug generated before validation, and `activate` /
 * `deactivate`. Checks the validation engine delegates elsewhere (`email`,
 * `country`, `language`, `date_format`) and Spatie's slug generator are
 * function parameters.
 */
module TenantModel {
  import opened Wrappers
  import opened Text
  import opened Tenants

  /** A query on the tenants table: the conditions added so far. */
  class TenantQuery {
    var wheres: seq<TenantWhere>

    constructor()
      ensures wheres == []
    {
      wheres := [];
    }

    /** `scopeActive`: `where('is_active', true)`. */
    method Active()
      modifies this
      ensures wheres == old(wheres) + [Where("is_active", BoolV(true))]
    {
      wheres := wheres + [Where("is_active", BoolV(true))];
    }

    /** `scopeInactive`: `where('is_active', false)`. */
    method Inactive()
      modifies this
      ensures wheres == old(wheres) + [Where("is_active", BoolV(false))]
    {
      wheres := wheres + [Where("is_active", BoolV(false))];
    }

    /** `scopeWithGroup($group)`: `where('group', $group)`. */
    method WithGroup(group: string)
      modifies this
      ensures wheres == old(wheres) + [Where("group", StrV(group))]
    {
      wheres := wheres + [Where("group", StrV(group))];
    }
  }

  lemma SatisfiesAllAppend(t: Tenant, ws: seq<TenantWhere>, w: TenantWhere)
    ensures SatisfiesAll(t, ws + [w]) <==> SatisfiesAll(t, ws) && Satisfies(t, w)
  {
    if SatisfiesAll(t, ws + [w]) {
      forall j | 0 <= j < |ws| ensures Satisfies(t, ws[j]) {
        assert (ws + [w])[j] == ws[j];
      }
      assert (ws + [w])[|ws|] == w;
    }
  }

  /** On top of any query, `active()` and `inactive()` split its tenants in two. */
  lemma ActiveInactivePartition(ts: seq<Tenant>, ws: seq<TenantWhere>)
    ensures forall t :: t in Get(ts, ws) <==>
      (t in Get(ts, ws + [Where("is_active", BoolV(true))]) || t in Get(ts, ws + [Where("is_active", BoolV(false))]))
    ensures forall t :: !(t in Get(ts, ws + [Where("is_active", BoolV(true))]) && t in Get(ts, ws + [Where("is_active", BoolV(false))]))
    ensures forall t :: t in Get(ts, ws + [Where("is_active", BoolV(true))]) ==> t.isActive
    ensures forall t :: t in Get(ts, ws + [Where("is_active", BoolV(false))]) ==> !t.isActive
  {
    forall t
      ensures SatisfiesAll(t, ws + [Where("is_active", BoolV(true))]) <==> SatisfiesAll(t, ws) && t.isActive
      ensures SatisfiesAll(t, ws + [Where("is_active", BoolV(false))]) <==> SatisfiesAll(t, ws) && !t.isActive
    {
      SatisfiesAllAppend(t, ws, Where("is_active", BoolV(true)));
      SatisfiesAllAppend(t, ws, Where("is_active", BoolV(false)));
    }
  }

  /** `withGroup($g)` keeps exactly the tenants of the query whose group is `$g`. */
  lemma WithGroupFilters(ts: seq<Tenant>, ws: seq<TenantWhere>, g: string)
    ensures forall t :: t in Get(ts, ws + [Where("group", StrV(g))]) <==> t in Get(ts, ws) && t.group == Some(g)
  {
    forall t ensures SatisfiesAll(t, ws + [Where("group", StrV(g))]) <==> SatisfiesAll(t, ws) && t.group == Some(g) {
      SatisfiesAllAppend(t, ws, Where("group", StrV(g)));
    }
  }

  /** The attributes validation sees; `None` is an absent or null attribute. */
  datatype TenantInput = TenantInput(
    slug: Option<string>,
    name: Option<string>,
    description: Option<string>,
    ownerId: Option<int>,
    email: Option<string>,
    countryCode: Option<string>,
    languageCode: Option<string>,
    launchDate: Option<string>,
    group: Option<string>,
    isActive: Option<Value>)

  /** The checks the validation engine provides: `email`, `country`, `language`, `date_format:Y-m-d`. */
  datatype ExternalRules = ExternalRules(
    isEmail: string -> bool,
    isCountry: string -> bool,
    isLanguage: string -> bool,
    isYmd: string -> bool)

  /** `required`: present, and not empty once trimmed. */
  predicate Required(v: Option<string>) {
    v.Some? && !Blank(v.value)
  }

  /** A non-implicit rule only runs on a present, non-blank value. */
  predicate Optional(v: Option<string>, rule: string -> bool) {
    v.None? || Blank(v.value) || rule(v.value)
  }

  /** `unique:tenants,<column>`, ignoring the tenant's own row. */
  predicate UniqueAmong(ts: seq<Tenant>, selfId: Option<int>, column: string, v: string) {
    forall t :: t in ts && (selfId.None? || t.id != selfId.value) ==> ColumnValue(t, column) != StrV(v)
  }

  /** Laravel's `boolean`: true, false, 0, 1, "0" and "1" (a blank string is not validated). */
  predicate BooleanValue(v: Value) {
    v == BoolV(true) || v == BoolV(false) || v == IntV(0) || v == IntV(1) || v == StrV("0") || v == StrV("1")
    || (v.StrV? && Blank(v.s))
  }

  /** The rule set of the tenant model. */
  predicate PassesRules(i: TenantInput, ts: seq<Tenant>, selfId: Option<int>, userIds: set<int>, ext: ExternalRules) {
    // slug: required|alpha_dash|max:150|unique
    && Required(i.slug) && AlphaDash(i.slug.value) && |i.slug.value| <= 150 && UniqueAmong(ts, selfId, "slug", i.slug.value)
    // name: required|string|max:150
    && Required(i.name) && |i.name.value| <= 150
    // description: nullable|string|max:10000
    && Optional(i.description, s => |s| <= 10000)
    // owner_id: required|integer|exists:users,id
    && i.ownerId.Some? && i.ownerId.value in userIds
    // email: required|email|min:3|max:150|unique
    && Required(i.email) && ext.isEmail(i.email.value) && 3 <= |i.email.value| <= 150
    && UniqueAmong(ts, selfId, "email", i.email.value)
    // country_code / language_code: required|alpha|size:2|country (language)
    && Required(i.countryCode) && Alpha(i.countryCode.value) && |i.countryCode.value| == 2 && ext.isCountry(i.countryCode.value)
    && Required(i.languageCode) && Alpha(i.languageCode.value) && |i.languageCode.value| == 2 && ext.isLanguage(i.languageCode.value)
    // launch_date: nullable|date_format:Y-m-d
    && Optional(i.launchDate, ext.isYmd)
    // group: nullable|string|max:150
    && Optional(i.group, s => |s| <= 150)
    // is_active: sometimes|boolean
    && (i.isActive.None? || BooleanValue(i.isActive.value))
  }

  /** The `boolean` cast of `is_active`; the column defaults to true. */
  function ActiveFlag(v: Option<Value>): bool {
    match v
    case None => true
    case Some(x) => x == BoolV(true) || x == IntV(1) || x == StrV("1")
  }

  /** The row a validated input is stored as; `name` goes under the current locale. */
  function FromInput(i: TenantInput, id: int, locale: string): (t: Tenant)
    requires i.slug.Some? && i.name.Some? && i.email.Some?
    ensures t.id == id && t.slug == i.slug.value && t.email == i.email.value && t.domain == None
    ensures t.name == map[locale := i.name.value] && t.group == i.group
    ensures i.isActive.None? ==> t.isActive
  {
    Tenant(id, i.slug.value, None, map[locale := i.name.value], i.email.value, i.group, ActiveFlag(i.isActive))
  }

  /** A slug that passes validation is one non-empty DNS label: it has no dot, so `slug.central` splits back to it. */
  lemma ValidSlugIsLabel(i: TenantInput, ts: seq<Tenant>, selfId: Option<int>, userIds: set<int>, ext: ExternalRules)
    requires PassesRules(i, ts, selfId, userIds, ext)
    ensures i.slug.value != "" && DotFree(i.slug.value)
  {
    var s := i.slug.value;
    forall k | 0 <= k < |s| ensures s[k] != '.' {
      assert IsLetter(s[k]) || IsDigit(s[k]) || s[k] == '-' || s[k] == '_';
    }
  }

  /** Inserting a validated tenant keeps slugs unique. */
  lemma {:induction false} ValidatedInsertKeepsUniqueSlugs(i: TenantInput, ts: seq<Tenant>, userIds: set<int>, ext: ExternalRules, id: int, locale: string)
    requires UniqueSlugs(ts)
    requires PassesRules(i, ts, None, userIds, ext)
    ensures UniqueSlugs(ts + [FromInput(i, id, locale)])
  {
    var t := FromInput(i, id, locale);
    var ts' := ts + [t];
    forall a, b | 0 <= a < |ts'| && 0 <= b < |ts'| && ts'[a].slug == ts'[b].slug ensures a == b {
      if a < |ts| && b < |ts| {
        assert ts'[a] == ts[a] && ts'[b] == ts[b];
      }
    }
  }

  /**
   * The `unique` rule on `slug` ignores the tenant's own row: re-saving a stored
   * tenant with its own slug passes it, while creating a tenant with that slug fails.
   */
  lemma OwnSlugPassesUniqueOnUpdate(ts: seq<Tenant>, t: Tenant)
    requires UniqueSlugs(ts) && t in ts
    ensures UniqueAmong(ts, Some(t.id), "slug", t.slug)
    ensures !UniqueAmong(ts, None, "slug", t.slug)
  {
    var i :| 0 <= i < |ts| && ts[i] == t;
    forall u | u in ts && u.id != t.id
      ensures ColumnValue(u, "slug") != StrV(t.slug)
    {
      var j :| 0 <= j < |ts| && ts[j] == u;
      assert ts[j].slug != ts[i].slug;
    }
    assert ColumnValue(t, "slug") == StrV(t.slug);
  }

  /** Spatie's slug options. */
  datatype SlugOptions = SlugOptions(generateOnCreate: bool, generateOnUpdate: bool, from: seq<string>, saveTo: string)

  /** `getSlugOptions()`: generated from `name` into `slug`, on create but not on update. */
  const TenantSlugOptions := SlugOptions(true, false, ["name"], "slug")

  /** Which of Spatie's generators a validating hook calls. */
  datatype SlugCall = GenerateOnCreate | GenerateOnUpdate | NoSlugCall

  /** The validating hook: update generation for a saved tenant, create generation for a new one, each only if enabled. */
  function ValidatingSlugCall(persisted: bool, opts: SlugOptions): (c: SlugCall)
    ensures c == GenerateOnUpdate ==> persisted && opts.generateOnUpdate
    ensures c == GenerateOnCreate ==> !persisted && opts.generateOnCreate
    ensures c == NoSlugCall <==> (persisted && !opts.generateOnUpdate) || (!persisted && !opts.generateOnCreate)
  {
    if persisted && opts.generateOnUpdate then GenerateOnUpdate
    else if !persisted && opts.generateOnCreate then GenerateOnCreate
    else NoSlugCall
  }

  /** Spatie's `generateSlugOnCreate` / `generateSlugOnUpdate` return at once when their option is off. */
  predicate GeneratorRuns(c: SlugCall, opts: SlugOptions) {
    (c == GenerateOnCreate && opts.generateOnCreate) || (c == GenerateOnUpdate && opts.generateOnUpdate)
  }

  /** With the tenant's options, the slug is generated exactly for new tenants. */
  lemma SlugGeneratedOnlyOnCreate(persisted: bool)
    ensures GeneratorRuns(ValidatingSlugCall(persisted, TenantSlugOptions), TenantSlugOptions) <==> !persisted
  {
  }

  /** How `update()` ends: it returns false for a model not in the table, saves, or throws `ValidationException`. */
  datatype UpdateOutcome = NotPersisted | Saved | ValidationThrown

  /** A loaded or new tenant model. */
  class TenantRecord {
    var attributes: Tenant
    var original: Tenant    // the attributes as last loaded or saved
    var persisted: bool     // `$exists`

    /** A model as it comes out of a query (or `new`), with nothing dirty. */
    constructor(attributes: Tenant, persisted: bool)
      ensures this.attributes == attributes && original == attributes && this.persisted == persisted
    {
      this.attributes := attributes;
      this.original := attributes;
      this.persisted := persisted;
    }

    /** The validating hook; `generate` is Spatie's slug for the current attributes. */
    method Validating(generate: Tenant -> string)
      modifies this
      ensures persisted == old(persisted) && original == old(original)
      ensures attributes == if old(persisted) then old(attributes) else old(attributes).(slug := generate(old(attributes)))
    {
      var call := ValidatingSlugCall(persisted, TenantSlugOptions);
      if GeneratorRuns(call, TenantSlugOptions) {
        attributes := attributes.(slug := generate(attributes));
      }
    }

    /**
     * `update(['is_active' => $flag])`: nothing happens unless the model
     * exists; otherwise the flag is filled and `save()` runs. `passes` is the
     * validator's verdict on the filled record: when it fails, the save throws
     * (`$throwValidationExceptions`) and the table is untouched; when it
     * passes, the dirty columns are written and become the new original.
     */
    method UpdateActive(db: Database, flag: bool, passes: bool) returns (outcome: UpdateOutcome)
      modifies this, db
      ensures persisted == old(persisted)
      ensures outcome == if !old(persisted) then NotPersisted else if passes then Saved else ValidationThrown
      ensures !old(persisted) ==> attributes == old(attributes)
      ensures old(persisted) ==> attributes == old(attributes).(isActive := flag)
      ensures outcome == Saved ==> original == attributes
      ensures outcome == Saved ==> db.store == old(db.store).(tenants := SaveDirty(old(db.store.tenants), old(original), attributes))
      ensures outcome != Saved ==> original == old(original) && db.store == old(db.store)
    {
      if !persisted {
        return NotPersisted;
      }
      attributes := attributes.(isActive := flag);
      if !passes {
        return ValidationThrown;
      }
      db.store := db.store.(tenants := SaveDirty(db.store.tenants, original, attributes));
      original := attributes;
      outcome := Saved;
    }

    /**
     * `activate()`: `update(['is_active' => true])`, then `return $this`.
     * `None` stands for the `ValidationException` the save throws, in which
     * case `activate()` never returns.
     */
    method Activate(db: Database, passes: bool) returns (self: Option<TenantRecord>)
      modifies this, db
      ensures self == if old(persisted) && !passes then None else Some(this)
      ensures persisted == old(persisted)
      ensures !old(persisted) ==> attributes == old(attributes) && original == old(original) && db.store == old(db.store)
      ensures old(persisted) ==> attributes == old(attributes).(isActive := true)
      ensures old(persisted) && passes ==> original == attributes
      ensures old(persisted) && passes ==> db.store == old(db.store).(tenants := SaveDirty(old(db.store.tenants), old(original), attributes))
      ensures !passes ==> original == old(original) && db.store == old(db.store)
    {
      var outcome := UpdateActive(db, true, passes);
      self := if outcome == ValidationThrown then None else Some(this);
    }

    /** `deactivate()`: `update(['is_active' => false])`, then `return $this`; `None` stands for the thrown `ValidationException`. */
    method Deactivate(db: Database, passes: bool) returns (self: Option<TenantRecord>)
      modifies this, db
      ensures self == if old(persisted) && !passes then None else Some(this)
      ensures persisted == old(persisted)
      ensures !old(persisted) ==> attributes == old(attributes) && original == old(original) && db.store == old(db.store)
      ensures old(persisted) ==> attributes == old(attributes).(isActive := false)
      ensures old(persisted) && passes ==> original == attributes
      ensures old(persisted) && passes ==> db.store == old(db.store).(tenants := SaveDirty(old(db.store.tenants), old(original), attributes))
      ensures !passes ==> original == old(original) && db.store == old(db.store)
    {
      var outcome := UpdateActive(db, false, passes);
      self := if outcome == ValidationThrown then None else Some(this);
    }
  }

  /** Setting the flag twice is setting it once. */
  lemma SetActiveIdempotent(ts: seq<Tenant>, id: int, b: bool)
    ensures SetActive(SetActive(ts, id, b), id, b) == SetActive(ts, id, b)
  {
  }

  /** After the update, the tenant with that id (and only it) has the new flag, and every other column is kept. */
  lemma {:induction false} SetActiveTargetsOneTenant(ts: seq<Tenant>, t: Tenant, b: bool)
    requires UniqueIds(ts) && t in ts
    ensures t.(isActive := b) in SetActive(ts, t.id, b)
    ensures forall u :: u in SetActive(ts, t.id, b) && u.id == t.id ==> u == t.(isActive := b)
    ensures forall u :: u in ts && u.id != t.id ==> u in SetActive(ts, t.id, b)
  {
    var r := SetActive(ts, t.id, b);
    var i :| 0 <= i < |ts| && ts[i] == t;
    assert r[i] == t.(isActive := b);
    forall u | u in r && u.id == t.id ensures u == t.(isActive := b) {
      var k :| 0 <= k < |r| && r[k] == u;
      assert ts[k].id == t.id;
    }
    forall u | u in ts && u.id != t.id ensures u in r {
      var k :| 0 <= k < |ts| && ts[k] == u;
      assert r[k] == u;
    }
  }
}
