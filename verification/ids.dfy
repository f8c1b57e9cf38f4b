/** Primary keys and clock values shared by every table of the model. */
module Ids {
  type UserId = nat
  type PartnerId = nat
  type TemplateId = nat
  /** Key of the `partner_account` relation the promotion views use. */
  type PartnerAccountId = nat
  /** Primary key of the promotions' own partner table (core/models.py). */
  type CorePartnerId = nat
  /** A `DateTimeField` value: ticks of the clock. */
  type Timestamp = nat

  /** A subset of a set of keys has no more elements than the set. */
  lemma SubsetSize<K>(a: set<K>, b: set<K>)
    requires a <= b
    ensures |a| <= |b|
  {
    assert b == a + (b - a);
  }
}
