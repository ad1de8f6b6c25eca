/** The checks a POST to the orders endpoint must pass before a row is
    inserted (backend/orders/index.py, lines 40-68). The rules run in order and
    the first that fails decides the 400 message. */
module OrderValidation {
  import opened Http
  import opened Text

  /** The JSON body of a POST, already parsed; a missing key is `None`, and a
      request without a body reads as `{}`, every key missing. */
  datatype OrderFields = OrderFields(
    playerId: Option<string>,
    ucAmount: Option<int>,
    bonusUc: Option<int>,
    price: Option<int>)

  /** The values that go into the INSERT once every rule has passed. */
  datatype Draft = Draft(playerId: string, ucAmount: int, bonusUc: int, price: int)

  datatype Verdict = Accepted(draft: Draft) | Rejected(error: string)

  const InvalidPlayerId := "Invalid player_id"
  const PlayerIdLength := "player_id must be 8-12 digits"
  const InvalidAmounts := "Invalid uc_amount or price"

  const MinIdLength := 8
  const MaxIdLength := 12

  /** A player identifier the endpoint stores: 8 to 12 decimal digits. */
  predicate IsPlayerId(s: string) {
    IsDigits(s) && MinIdLength <= |s| <= MaxIdLength
  }

  /** `body_data.get('player_id', '').strip()` */
  function StrippedPlayerId(f: OrderFields): string {
    Strip(GetOr(f.playerId, ""))
  }

  function ValidateOrder(f: OrderFields): (v: Verdict)
    // the verdict is Accepted exactly when the id and both amounts are good
    ensures v.Accepted? <==>
      IsPlayerId(StrippedPlayerId(f)) && GetOr(f.ucAmount, 0) > 0 && GetOr(f.price, 0) > 0
    // rule 1 fails first: an empty or non-digit id
    ensures v == Rejected(InvalidPlayerId) <==> !IsDigits(StrippedPlayerId(f))
    // rule 2 is reached only with a digit id, and fails on its length
    ensures v == Rejected(PlayerIdLength) <==>
      IsDigits(StrippedPlayerId(f)) && !(MinIdLength <= |StrippedPlayerId(f)| <= MaxIdLength)
    // rule 3 is reached only with a valid id, and fails on a non-positive amount
    ensures v == Rejected(InvalidAmounts) <==>
      IsPlayerId(StrippedPlayerId(f)) && (GetOr(f.ucAmount, 0) <= 0 || GetOr(f.price, 0) <= 0)
    // an accepted draft carries the stripped id and the amounts as sent; bonus_uc is never checked
    ensures v.Accepted? ==> v.draft == Draft(StrippedPlayerId(f),
      GetOr(f.ucAmount, 0), GetOr(f.bonusUc, 0), GetOr(f.price, 0))
  {
    var playerId := StrippedPlayerId(f);
    var ucAmount := GetOr(f.ucAmount, 0);
    var bonusUc := GetOr(f.bonusUc, 0);
    var price := GetOr(f.price, 0);
    if playerId == "" || !IsDigits(playerId) then
      Rejected(InvalidPlayerId)
    else if |playerId| < MinIdLength || |playerId| > MaxIdLength then
      Rejected(PlayerIdLength)
    else if ucAmount <= 0 || price <= 0 then
      Rejected(InvalidAmounts)
    else
      Accepted(Draft(playerId, ucAmount, bonusUc, price))
  }

  /** The body a client would send to create exactly this draft. */
  function FieldsOf(d: Draft): OrderFields {
    OrderFields(Some(d.playerId), Some(d.ucAmount), Some(d.bonusUc), Some(d.price))
  }

  /** What the 201 response echoes is itself a valid order: a draft that
      meets every rule is accepted unchanged when sent back. */
  lemma AcceptedDraftRevalidates(d: Draft)
    requires IsPlayerId(d.playerId) && d.ucAmount > 0 && d.price > 0
    ensures ValidateOrder(FieldsOf(d)) == Accepted(d)
  {
    EchoedIdUnchanged(d);
  }

  lemma EchoedIdUnchanged(d: Draft)
    requires IsDigits(d.playerId)
    ensures StrippedPlayerId(FieldsOf(d)) == d.playerId
  {
    StripDigits(d.playerId);
  }

  /** Whitespace around the player id never changes the verdict. */
  lemma PaddedIdSameVerdict(f: OrderFields, w1: string, w2: string)
    requires AllSpace(w1) && AllSpace(w2)
    ensures ValidateOrder(f.(playerId := Some(w1 + GetOr(f.playerId, "") + w2))) == ValidateOrder(f)
  {
    StripIgnoresPadding(w1, GetOr(f.playerId, ""), w2);
  }

  /** A whitespace-only id fails the first rule, whatever the amounts. */
  lemma BlankIdRejected(f: OrderFields)
    requires AllSpace(GetOr(f.playerId, ""))
    ensures ValidateOrder(f) == Rejected(InvalidPlayerId)
  {
  }

  /** `bonus_uc` plays no part in validation: changing it changes only the
      bonus of an accepted draft. */
  lemma BonusNeverChecked(f: OrderFields, bonus: Option<int>)
    ensures var v, w := ValidateOrder(f), ValidateOrder(f.(bonusUc := bonus));
      (v.Rejected? ==> w == v) &&
      (v.Accepted? ==> w == Accepted(v.draft.(bonusUc := GetOr(bonus, 0))))
  {
  }
}
