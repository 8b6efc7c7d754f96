/** The subscription page: each plan's feature list, its price label and
    button, and what pressing the button sends. */
module Subscription {
  import opened Common

  /** The plan features the page lists; a count of 0 (or none) is absent. */
  datatype PlanFeatures = PlanFeatures(
    customPaperPerDay: Option<int>,
    examsPerDay: Option<int>,
    maxCustomPapersStorage: Option<int>,
    noAds: bool,
    multiLanguageAccess: bool)

  datatype Plan = Plan(id: string, price: int, currency: Option<string>, features: Option<PlanFeatures>)

  /** A number is listed when it is truthy: present and not zero. */
  predicate Truthy(n: Option<int>)
  {
    n.Some? && n.value != 0
  }

  /** The number a truthy feature shows. */
  function Count(n: Option<int>): int
  {
    if n.Some? then n.value else 0
  }

  /** The five kinds of entry, in the order the list gives them. */
  datatype Feature = CustomPapers(n: int) | Exams(n: int) | SavedPapers(n: int) | NoAds | MultiLanguage

  function Rank(f: Feature): nat
  {
    match f
    case CustomPapers(_) => 0
    case Exams(_) => 1
    case SavedPapers(_) => 2
    case NoAds => 3
    case MultiLanguage => 4
  }

  function Text(f: Feature): string
  {
    match f
    case CustomPapers(n) => IntToString(n) + " custom papers/day"
    case Exams(n) => IntToString(n) + " exams/day"
    case SavedPapers(n) => IntToString(n) + " saved papers"
    case NoAds => "No ads"
    case MultiLanguage => "Multi-language access"
  }

  /** The entry of rank `k`, if its feature is set. */
  function Piece(f: PlanFeatures, k: nat): (r: seq<Feature>)
    requires k < 5
    ensures |r| <= 1 && forall i :: 0 <= i < |r| ==> Rank(r[i]) == k
  {
    if k == 0 then (if Truthy(f.customPaperPerDay) then [CustomPapers(f.customPaperPerDay.value)] else [])
    else if k == 1 then (if Truthy(f.examsPerDay) then [Exams(f.examsPerDay.value)] else [])
    else if k == 2 then (if Truthy(f.maxCustomPapersStorage) then [SavedPapers(f.maxCustomPapersStorage.value)] else [])
    else if k == 3 then (if f.noAds then [NoAds] else [])
    else (if f.multiLanguageAccess then [MultiLanguage] else [])
  }

  /** The entries of rank `k` and above, in rank order. */
  function From(f: PlanFeatures, k: nat): seq<Feature>
    requires k <= 5
    decreases 5 - k
  {
    if k == 5 then [] else Piece(f, k) + From(f, k + 1)
  }

  /** The entries a plan lists: each present feature, in the fixed order. */
  function FeatureList(features: Option<PlanFeatures>): seq<Feature>
  {
    if features.None? then [] else From(features.value, 0)
  }

  lemma {:induction false} FromFacts(f: PlanFeatures, k: nat)
    requires k <= 5
    ensures var r := From(f, k);
      && |r| <= 5 - k
      && (forall i :: 0 <= i < |r| ==> k <= Rank(r[i]))
      && (forall i, j :: 0 <= i < j < |r| ==> Rank(r[i]) < Rank(r[j]))
      && (forall x :: x in r <==> k <= Rank(x) && x in Piece(f, Rank(x)))
    decreases 5 - k
  {
    if k < 5 {
      FromFacts(f, k + 1);
      var p, rest := Piece(f, k), From(f, k + 1);
      assert From(f, k) == p + rest;
      forall x ensures x in p + rest <==> k <= Rank(x) && x in Piece(f, Rank(x)) {
        if x in p {
          assert Rank(x) == k;
        }
        if Rank(x) == k && x in Piece(f, Rank(x)) {
          assert x in p;
        }
      }
    }
  }

  /** At most five entries, in strictly increasing rank (so no kind twice),
      and each kind present exactly when its feature is set, with its count. */
  lemma FeatureListFacts(features: Option<PlanFeatures>)
    ensures var r := FeatureList(features);
      && |r| <= 5
      && (forall i, j :: 0 <= i < j < |r| ==> Rank(r[i]) < Rank(r[j]))
      && (NoAds in r <==> features.Some? && features.value.noAds)
      && (MultiLanguage in r <==> features.Some? && features.value.multiLanguageAccess)
      && (forall n :: CustomPapers(n) in r <==> features.Some? && Truthy(features.value.customPaperPerDay) && features.value.customPaperPerDay.value == n)
      && (forall n :: Exams(n) in r <==> features.Some? && Truthy(features.value.examsPerDay) && features.value.examsPerDay.value == n)
      && (forall n :: SavedPapers(n) in r <==> features.Some? && Truthy(features.value.maxCustomPapersStorage) && features.value.maxCustomPapersStorage.value == n)
  {
    if features.Some? {
      FromFacts(features.value, 0);
    }
  }

  /** The texts of a list of entries, one each, in order. */
  function Texts(fs: seq<Feature>): (r: seq<string>)
    ensures |r| == |fs| && forall i :: 0 <= i < |r| ==> r[i] == Text(fs[i])
  {
    seq(|fs|, i requires 0 <= i < |fs| => Text(fs[i]))
  }

  lemma TextsConcat(a: seq<Feature>, b: seq<Feature>)
    ensures Texts(a + b) == Texts(a) + Texts(b)
  {
  }

  /** `featureLabel`: the list is built by appending each present entry's
      text in turn. */
  method FeatureLabel(plan: Plan) returns (list: seq<string>)
    ensures list == Texts(FeatureList(plan.features))
  {
    list := [];
    if plan.features.None? {
      return;
    }
    var f := plan.features.value;
    list := PushIf(list, Truthy(f.customPaperPerDay), IntToString(Count(f.customPaperPerDay)) + " custom papers/day");
    list := PushIf(list, Truthy(f.examsPerDay), IntToString(Count(f.examsPerDay)) + " exams/day");
    list := PushIf(list, Truthy(f.maxCustomPapersStorage), IntToString(Count(f.maxCustomPapersStorage)) + " saved papers");
    list := PushIf(list, f.noAds, "No ads");
    list := PushIf(list, f.multiLanguageAccess, "Multi-language access");
    LabelsAreTexts(f);
  }

  /** The five conditional pushes, one after another. */
  function Labels(f: PlanFeatures): seq<string>
  {
    [] + (if Truthy(f.customPaperPerDay) then [IntToString(Count(f.customPaperPerDay)) + " custom papers/day"] else [])
       + (if Truthy(f.examsPerDay) then [IntToString(Count(f.examsPerDay)) + " exams/day"] else [])
       + (if Truthy(f.maxCustomPapersStorage) then [IntToString(Count(f.maxCustomPapersStorage)) + " saved papers"] else [])
       + (if f.noAds then ["No ads"] else [])
       + (if f.multiLanguageAccess then ["Multi-language access"] else [])
  }

  /** The pushes produce the texts of the feature list. */
  lemma LabelsAreTexts(f: PlanFeatures)
    ensures Labels(f) == Texts(From(f, 0))
  {
    PieceTexts(f);
    PiecesArePrefix(f);
    PrefixIsList(f);
  }

  /** Appending the texts of the five entries in rank order gives the
      texts of all five ranks. */
  lemma PiecesArePrefix(f: PlanFeatures)
    ensures [] + Texts(Piece(f, 0)) + Texts(Piece(f, 1)) + Texts(Piece(f, 2)) + Texts(Piece(f, 3)) + Texts(Piece(f, 4))
            == Texts(Prefix(f, 5))
  {
    var l1 := [] + Texts(Piece(f, 0));
    PushPiece([], l1, f, 0);
    var l2 := l1 + Texts(Piece(f, 1));
    PushPiece(l1, l2, f, 1);
    var l3 := l2 + Texts(Piece(f, 2));
    PushPiece(l2, l3, f, 2);
    var l4 := l3 + Texts(Piece(f, 3));
    PushPiece(l3, l4, f, 3);
    PushPiece(l4, l4 + Texts(Piece(f, 4)), f, 4);
  }

  /** `if (cond) list.push(text)`. */
  method PushIf(list: seq<string>, cond: bool, text: string) returns (r: seq<string>)
    ensures r == list + if cond then [text] else []
  {
    r := list;
    if cond {
      r := r + [text];
    }
  }

  /** The text each of the five entries contributes. */
  lemma PieceTexts(f: PlanFeatures)
    ensures Texts(Piece(f, 0)) == if Truthy(f.customPaperPerDay) then [IntToString(Count(f.customPaperPerDay)) + " custom papers/day"] else []
    ensures Texts(Piece(f, 1)) == if Truthy(f.examsPerDay) then [IntToString(Count(f.examsPerDay)) + " exams/day"] else []
    ensures Texts(Piece(f, 2)) == if Truthy(f.maxCustomPapersStorage) then [IntToString(Count(f.maxCustomPapersStorage)) + " saved papers"] else []
    ensures Texts(Piece(f, 3)) == if f.noAds then ["No ads"] else []
    ensures Texts(Piece(f, 4)) == if f.multiLanguageAccess then ["Multi-language access"] else []
  {
  }

  /** The entries of rank below `k`, in rank order. */
  function Prefix(f: PlanFeatures, k: nat): seq<Feature>
    requires k <= 5
  {
    if k == 0 then [] else Prefix(f, k - 1) + Piece(f, k - 1)
  }

  /** The entries below rank `k` followed by those from rank `k` on are
      the whole list. */
  lemma {:induction false} PrefixThenFrom(f: PlanFeatures, k: nat)
    requires k <= 5
    ensures Prefix(f, k) + From(f, k) == From(f, 0)
  {
    if k > 0 {
      PrefixThenFrom(f, k - 1);
      AppendAssoc(Prefix(f, k - 1), Piece(f, k - 1), From(f, k));
    }
  }

  lemma PrefixIsList(f: PlanFeatures)
    ensures Prefix(f, 5) == From(f, 0)
  {
    PrefixThenFrom(f, 5);
    assert Prefix(f, 5) + [] == Prefix(f, 5);
  }

  /** One conditional push appends the texts of the entry of rank `k`. */
  lemma PushPiece(before: seq<string>, after: seq<string>, f: PlanFeatures, k: nat)
    requires k < 5 && (k == 0 ==> before == []) && (k > 0 ==> before == Texts(Prefix(f, k)))
    requires after == before + Texts(Piece(f, k))
    ensures after == Texts(Prefix(f, k + 1))
  {
    TextsConcat(Prefix(f, k), Piece(f, k));
  }

  /** The price shows as "Free" for a price of 0; other prices go through
      the browser's currency formatting, which is not part of this model. */
  function PriceLabel(plan: Plan): (r: Option<string>)
    ensures r == Some("Free") <==> plan.price == 0
    ensures r.None? <==> plan.price != 0
  {
    if plan.price == 0 then Some("Free") else None
  }

  function ButtonLabel(plan: Plan): (r: string)
    ensures r == "Activate free plan" <==> plan.price == 0
    ensures r == "Continue to pay" <==> plan.price != 0
  {
    if plan.price == 0 then "Activate free plan" else "Continue to pay"
  }

  datatype SubscribeRequest = SubscribeRequest(planId: string, paymentId: string)

  /** What pressing a plan's button does: whether the payment id is asked
      for, and the subscription request sent, if any. */
  datatype Purchase = Purchase(asked: bool, request: Option<SubscribeRequest>)

  const FreePaymentId: string := "FREE_PLAN"

  /** `handlePurchase`; `answer` is what the payment-id prompt returns
      (none when it is dismissed), consulted only for paid plans. */
  function HandlePurchase(plan: Plan, answer: Option<string>): (r: Purchase)
    ensures plan.price == 0 ==> r == Purchase(false, Some(SubscribeRequest(plan.id, FreePaymentId)))
    ensures plan.price != 0 ==> r.asked
    ensures plan.price != 0 ==> (r.request.Some? <==> answer.Some? && answer.value != "")
    ensures plan.price != 0 && r.request.Some? ==> r.request.value == SubscribeRequest(plan.id, answer.value)
  {
    if plan.price == 0 then Purchase(false, Some(SubscribeRequest(plan.id, FreePaymentId)))
    else if answer.None? || answer.value == "" then Purchase(true, None)
    else Purchase(true, Some(SubscribeRequest(plan.id, answer.value)))
  }

  /** The button's label announces what pressing it does: the free
      activation never asks, paying always does. */
  lemma LabelMatchesPurchase(plan: Plan, answer: Option<string>)
    ensures ButtonLabel(plan) == "Activate free plan" <==> !HandlePurchase(plan, answer).asked
    ensures HandlePurchase(plan, answer).request.Some? ==> HandlePurchase(plan, answer).request.value.planId == plan.id
    ensures PriceLabel(plan) == Some("Free") <==> ButtonLabel(plan) == "Activate free plan"
  {
  }
}
