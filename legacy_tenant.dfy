/**
 * The older tenant model (`src/Tenant.php`): translatable `name` and
 * `description` setters, the slug setter, the validating listener that
 * fills an empty slug, the group scope and `findByName`. The current locale,
 * `str_slug` and Spatie's generated slug are parameters.
 */
module LegacyTenant {
  import opened Wrappers
  import opened Text
  import opened Tenants
  import opened TenantModel

  /** A value assigned to a translatable attribute. */
  datatype TextValue = NullText | PlainText(s: string) | Translations(m: map<string, string>)

  /** The JSON object stored for a translatable attribute: locale to text (a null text stays null). */
  type Translated = map<string, Option<string>>

  /** PHP `empty($value)`. */
  predicate EmptyText(v: TextValue) {
    match v
    case NullText => true
    case PlainText(s) => !Truthy(s)
    case Translations(m) => m == map[]
  }

  /** A non-array value is stored under the current locale; an array is stored as given. */
  function Translate(v: TextValue, locale: string): (r: Translated)
    ensures !v.Translations? ==> r.Keys == {locale}
    ensures v.NullText? ==> r[locale] == None
    ensures v.PlainText? ==> r[locale] == Some(v.s)
    ensures v.Translations? ==> r.Keys == v.m.Keys && forall k :: k in r ==> r[k] == Some(v.m[k])
  {
    match v
    case NullText => map[locale := None]
    case PlainText(s) => map[locale := Some(s)]
    case Translations(m) => map k | k in m :: Some(m[k])
  }

  /** The validating listener as written: for an empty slug, a saved tenant gets create generation and a new one update generation. */
  function ListenerCallAsWritten(slug: Option<string>, persisted: bool): SlugCall {
    if slug.None? || !Truthy(slug.value) then
      (if persisted then GenerateOnCreate else GenerateOnUpdate)
    else NoSlugCall
  }

  /** The listener as intended: an empty slug is generated with the generator matching the tenant's state. */
  function ListenerCall(slug: Option<string>, persisted: bool): (c: SlugCall)
    ensures c == GenerateOnCreate <==> (slug.None? || !Truthy(slug.value)) && !persisted
    ensures c == GenerateOnUpdate <==> (slug.None? || !Truthy(slug.value)) && persisted
  {
    if slug.None? || !Truthy(slug.value) then
      (if persisted then GenerateOnUpdate else GenerateOnCreate)
    else NoSlugCall
  }

  /** Intended: with the tenant's slug options, only a new tenant without a slug gets one, and an existing slug is never overwritten. */
  lemma ListenerFillsOnlyNewEmptySlugs(slug: Option<string>, persisted: bool)
    ensures GeneratorRuns(ListenerCall(slug, persisted), TenantSlugOptions) <==>
            (slug.None? || !Truthy(slug.value)) && !persisted
  {
  }

  /**
   * As written, a new tenant without a slug reaches Spatie's update
   * generator, which is switched off, so its slug stays empty; while a saved
   * tenant with an emptied slug is regenerated although update generation is off.
   */
  lemma ListenerAsWrittenMissesNewTenants()
    ensures !GeneratorRuns(ListenerCallAsWritten(None, false), TenantSlugOptions)
    ensures GeneratorRuns(ListenerCall(None, false), TenantSlugOptions)
    ensures GeneratorRuns(ListenerCallAsWritten(Some(""), true), TenantSlugOptions)
    ensures !GeneratorRuns(ListenerCall(Some(""), true), TenantSlugOptions)
  {
  }

  /** The attributes of an old-style tenant model that its setters and listener write. */
  class LegacyTenantRecord {
    var name: Option<Translated>
    var description: Option<Translated>
    var slug: Option<string>
    var persisted: bool  // `$exists`

    constructor(persisted: bool)
      ensures name == None && description == None && slug == None && this.persisted == persisted
    {
      name, description, slug := None, None, None;
      this.persisted := persisted;
    }

    /** `setNameAttribute($value)`. */
    method SetName(value: TextValue, locale: string)
      modifies this
      ensures name == Some(Translate(value, locale))
      ensures description == old(description) && slug == old(slug) && persisted == old(persisted)
    {
      name := Some(Translate(value, locale));
    }

    /** `setDescriptionAttribute($value)`: an empty value stores null. */
    method SetDescription(value: TextValue, locale: string)
      modifies this
      ensures description == if EmptyText(value) then None else Some(Translate(value, locale))
      ensures name == old(name) && slug == old(slug) && persisted == old(persisted)
    {
      description := if EmptyText(value) then None else Some(Translate(value, locale));
    }

    /** `setSlugAttribute($value)`: the stored slug is always `str_slug` of the assigned value. */
    method SetSlug(value: string, strSlug: string -> string)
      modifies this
      ensures slug == Some(strSlug(value))
      ensures name == old(name) && description == old(description) && persisted == old(persisted)
    {
      slug := Some(strSlug(value));
    }

    /**
     * The validating listener as written, registered only when the model has
     * an event dispatcher; `generated` is the slug Spatie derives from `name`.
     */
    method Validating(listening: bool, generated: string)
      modifies this
      ensures name == old(name) && description == old(description) && persisted == old(persisted)
      ensures slug == if listening && GeneratorRuns(ListenerCallAsWritten(old(slug), persisted), TenantSlugOptions)
                      then Some(generated) else old(slug)
      ensures !old(persisted) ==> slug == old(slug)
    {
      if listening {
        var call := ListenerCallAsWritten(slug, persisted);
        if GeneratorRuns(call, TenantSlugOptions) {
          slug := Some(generated);
        }
      }
    }
  }

  /** `scopeWithGroup($group = null)`: a falsy group leaves the query as it is. */
  method WithGroupIfGiven(q: TenantQuery, group: Option<string>)
    modifies q
    ensures q.wheres == old(q.wheres) + (if group.Some? && Truthy(group.value) then [Where("group", StrV(group.value))] else [])
  {
    if group.Some? && Truthy(group.value) {
      q.WithGroup(group.value);
    }
  }

  /** The group scope either keeps every tenant of the query or exactly those of the group. */
  lemma WithGroupIfGivenFilters(ts: seq<Tenant>, ws: seq<TenantWhere>, group: Option<string>)
    ensures var ws' := ws + (if group.Some? && Truthy(group.value) then [Where("group", StrV(group.value))] else []);
            forall t :: t in Get(ts, ws') <==> t in Get(ts, ws) && (group.Some? && Truthy(group.value) ==> t.group == group)
  {
    if group.Some? && Truthy(group.value) {
      WithGroupFilters(ts, ws, group.value);
    } else {
      assert ws + [] == ws;
    }
  }

  /**
   * The `name` column as `where("name->{$locale}", ...)` reads it: the locales
   * whose stored translation is a string (a JSON null matches no name).
   */
  function StoredName(tr: Translated): (names: map<string, string>)
    ensures forall k :: k in names <==> k in tr && tr[k].Some?
    ensures forall k :: k in names ==> names[k] == tr[k].value
  {
    map k | k in tr && tr[k].Some? :: tr[k].value
  }

  predicate NamedIn(t: Tenant, locale: string, name: string) {
    locale in t.name && t.name[locale] == name
  }

  function FirstNamed(ts: seq<Tenant>, locale: string, name: string): (r: Option<Tenant>)
    ensures r.Some? ==> r.value in ts && NamedIn(r.value, locale, name)
    ensures r.None? <==> forall t :: t in ts ==> !NamedIn(t, locale, name)
    ensures r.Some? ==> exists i :: 0 <= i < |ts| && ts[i] == r.value && forall j :: 0 <= j < i ==> !NamedIn(ts[j], locale, name)
  {
    if ts == [] then None
    else if NamedIn(ts[0], locale, name) then Some(ts[0])
    else
      var r := FirstNamed(ts[1..], locale, name);
      if r.Some? then
        var i :| 0 <= i < |ts[1..]| && ts[1..][i] == r.value && forall j :: 0 <= j < i ==> !NamedIn(ts[1..][j], locale, name);
        assert ts[i + 1] == r.value;
        assert forall j :: 1 <= j < i + 1 ==> ts[j] == ts[1..][j - 1];
        r
      else r
  }

  /**
   * `findByName($name, $locale = null)`: the first tenant whose name in the
   * given locale (or the application locale) is `$name`, or null.
   */
  function FindByName(ts: seq<Tenant>, name: string, locale: Option<string>, appLocale: string): (r: Option<Tenant>)
    ensures r.Some? ==> r.value in ts && NamedIn(r.value, locale.GetOr(appLocale), name)
    ensures r.None? <==> forall t :: t in ts ==> !NamedIn(t, locale.GetOr(appLocale), name)
  {
    FirstNamed(ts, locale.GetOr(appLocale), name)
  }

  /**
   * A name stored by `setNameAttribute` is found again by `findByName`: a
   * plain string under the locale it was set in (given or defaulted), a
   * translation map under each of its locales.
   */
  lemma SetNameThenFind(ts: seq<Tenant>, t: Tenant, value: TextValue, locale: string)
    requires t in ts && t.name == StoredName(Translate(value, locale))
    ensures value.PlainText? ==> FindByName(ts, value.s, None, locale).Some?
    ensures value.PlainText? ==> FindByName(ts, value.s, Some(locale), "").Some?
    ensures value.Translations? ==>
      forall k :: k in value.m ==> FindByName(ts, value.m[k], Some(k), locale).Some?
  {
    if value.PlainText? {
      assert NamedIn(t, locale, value.s);
    }
    if value.Translations? {
      forall k | k in value.m
        ensures FindByName(ts, value.m[k], Some(k), locale).Some?
      {
        assert NamedIn(t, k, value.m[k]);
      }
    }
  }

  /** Setting the name to null stores no translation: no name finds the tenant under that locale. */
  lemma NullNameNotFound(t: Tenant, locale: string, name: string)
    requires t.name == StoredName(Translate(NullText, locale))
    ensures FindByName([t], name, Some(locale), "").None?
  {
    assert locale !in t.name;
  }
}
