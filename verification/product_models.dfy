/**
 * The two models of product/models.py that no operation of this model reads or writes:
 * the anti-counterfeit `VerifyCode` of a product and the customer `Review`. They are
 * kept as their own tables, outside `Schema.Db`, with the defaults and the
 * `unique_together` constraint the database enforces on insert.
 */
module ProductModels {
  import opened Common
  import opened Errors
  import opened Schema

  /** A verification code printed on a product, scanned at most `maxScan` times. */
  datatype VerifyCode = VerifyCode(product: Uid, code: string, qrUrl: Option<string>, maxScan: int, scanCount: int, createdAt: Instant)

  /** `VerifyCode(product=…, code=…)` saved: `max_scan` 3, `scan_count` 0, created now. */
  function NewVerifyCode(product: Uid, code: string, qrUrl: Option<string>, now: Instant): (v: VerifyCode)
    ensures v.product == product && v.code == code && v.createdAt == now
    ensures v.scanCount == 0 && v.maxScan == 3 && v.scanCount < v.maxScan
  {
    VerifyCode(product, code, qrUrl, 3, 0, now)
  }

  /** A customer's review of a product. */
  datatype Review = Review(product: Uid, user: Uid, imageUrl: Option<string>, rating: int, comment: Option<string>, createdAt: Instant, updatedAt: Instant)

  /** `unique_together = ("product", "user")`. */
  ghost predicate OneReviewPerPair(reviews: map<Uid, Review>) {
    forall a, b :: a in reviews && b in reviews && a != b ==>
      reviews[a].product != reviews[b].product || reviews[a].user != reviews[b].user
  }

  predicate Reviewed(reviews: map<Uid, Review>, product: Uid, user: Uid) {
    exists k :: k in reviews && reviews[k].product == product && reviews[k].user == user
  }

  /** Inserting a review under a fresh key: a second review of the same product by the same user is refused. */
  function InsertReview(reviews: map<Uid, Review>, key: Uid, r: Review): (out: Result<map<Uid, Review>>)
    requires key !in reviews
    ensures out.Err? <==> Reviewed(reviews, r.product, r.user)
    ensures out.Err? ==> out.error == IntegrityError
    ensures out.Ok? ==> out.value.Keys == reviews.Keys + {key} && out.value[key] == r
    ensures out.Ok? ==> forall k :: k in reviews ==> out.value[k] == reviews[k]
  {
    if Reviewed(reviews, r.product, r.user) then Err(IntegrityError) else Ok(reviews[key := r])
  }

  /** An accepted insert keeps every (product, user) pair reviewed at most once. */
  lemma {:induction false} InsertReviewKeepsUnique(reviews: map<Uid, Review>, key: Uid, r: Review)
    requires key !in reviews && OneReviewPerPair(reviews)
    ensures InsertReview(reviews, key, r).Ok? ==> OneReviewPerPair(InsertReview(reviews, key, r).value)
  {
    if InsertReview(reviews, key, r).Ok? {
      var m := reviews[key := r];
      forall a, b | a in m && b in m && a != b
        ensures m[a].product != m[b].product || m[a].user != m[b].user
      {
        if a == key {
          assert b in reviews && m[b] == reviews[b];
        } else if b == key {
          assert a in reviews && m[a] == reviews[a];
        }
      }
    }
  }
}
