/**
 * The package's exceptions and their exact messages. The two resolver
 * failures are the variants of `TenantException` (both extend the abstract
 * tenant exception); `ModelNotFoundForTenantException` is a class because
 * `setModel` writes its fields in place and returns the same object.
 */
module Exceptions {
  import opened Wrappers

  /** The failures a resolver may raise (an `AbstractTenantException`). */
  datatype TenantException =
    | InvalidSubdomainTenant(host: string)
    | InvalidDomainTenant(value: string)

  const SubdomainPrefix := "Host "
  const SubdomainSuffix := " is invalid subdomain!"
  const DomainPrefix := "Tenant not found for domain "
  const TenantModelPrefix := "No query results for model ["
  const TenantModelSuffix := "] when scoped by tenant."

  /** The message of `InvalidSubdomainTenantException`. */
  function InvalidSubdomainMessage(host: string): (m: string)
    ensures |m| == |host| + 27
    ensures m[..5] == "Host " && m[5..|m| - 22] == host && m[|m| - 22..] == " is invalid subdomain!"
  {
    SubdomainPrefix + host + SubdomainSuffix
  }

  /** The message of `InvalidDomainTenantException`, whatever value (host or slug) it carries. */
  function InvalidDomainMessage(value: string): (m: string)
    ensures |m| == |value| + 28
    ensures m[..28] == "Tenant not found for domain " && m[28..] == value
  {
    DomainPrefix + value
  }

  function Message(e: TenantException): string {
    match e
    case InvalidSubdomainTenant(h) => InvalidSubdomainMessage(h)
    case InvalidDomainTenant(v) => InvalidDomainMessage(v)
  }

  /** Reads the host back out of an invalid-subdomain message. */
  function HostOfSubdomainMessage(m: string): Option<string> {
    if |m| >= 27 && m[..5] == SubdomainPrefix && m[|m| - 22..] == SubdomainSuffix
    then Some(m[5..|m| - 22])
    else None
  }

  /** The host can always be recovered from the message, so distinct hosts give distinct messages. */
  lemma SubdomainMessageRoundTrip(host: string)
    ensures HostOfSubdomainMessage(InvalidSubdomainMessage(host)) == Some(host)
  {
  }

  lemma SubdomainMessageInjective(h1: string, h2: string)
    requires InvalidSubdomainMessage(h1) == InvalidSubdomainMessage(h2)
    ensures h1 == h2
  {
    SubdomainMessageRoundTrip(h1);
    SubdomainMessageRoundTrip(h2);
  }

  /** The domain message ends with the carried value and determines it. */
  lemma DomainMessageEndsWithValue(v1: string, v2: string)
    ensures InvalidDomainMessage(v1)[|InvalidDomainMessage(v1)| - |v1|..] == v1
    ensures InvalidDomainMessage(v1) == InvalidDomainMessage(v2) ==> v1 == v2
  {
    var m1, m2 := InvalidDomainMessage(v1), InvalidDomainMessage(v2);
    assert m1[|m1| - |v1|..] == m1[28..];
    if m1 == m2 {
      assert v1 == m1[28..] == m2[28..] == v2;
    }
  }

  /** The message `setModel` writes into `ModelNotFoundForTenantException`. */
  function NotFoundForTenantMessage(model: string): (m: string)
    ensures |m| == |model| + 52
    ensures m[..28] == "No query results for model [" && m[28..|m| - 24] == model
    ensures m[|m| - 24..] == "] when scoped by tenant."
  {
    TenantModelPrefix + model + TenantModelSuffix
  }

  /**
   * The not-found failures of a lookup. `ModelNotFoundForTenant` extends
   * `ModelNotFound`: a handler for the general kind catches both.
   */
  datatype NotFoundError =
    | ModelNotFound(model: string, ids: seq<int>)
    | ModelNotFoundForTenant(model: string, message: string)

  datatype Handler = CatchModelNotFound | CatchModelNotFoundForTenant

  predicate Catches(h: Handler, e: NotFoundError) {
    match h
    case CatchModelNotFound => true
    case CatchModelNotFoundForTenant => e.ModelNotFoundForTenant?
  }

  class ModelNotFoundForTenantException {
    var model: Option<string>
    var message: string
    var ids: Option<seq<int>>

    /** `new ModelNotFoundForTenantException()`: no model, no ids, the empty message. */
    constructor()
      ensures model == None && message == "" && ids == None
    {
      model, message, ids := None, "", None;
    }

    /** `setModel($model, $ids)`: stores the model name and the message; `ids` is not stored. */
    method SetModel(model: string, ids: seq<int>) returns (self: ModelNotFoundForTenantException)
      modifies this
      ensures self == this
      ensures this.model == Some(model)
      ensures message == NotFoundForTenantMessage(model)
      ensures this.ids == old(this.ids)
    {
      this.model := Some(model);
      message := TenantModelPrefix + model + TenantModelSuffix;
      self := this;
    }

    function AsError(): NotFoundError
      reads this
    {
      ModelNotFoundForTenant(model.GetOr(""), message)
    }
  }
}
