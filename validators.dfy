/**
 * `TransactionRequestValidator`: the rules a credit or debit request must
 * pass before it reaches the engine, each with the field it concerns and its
 * message. Every rule is checked, so a request gets one failure per broken rule,
 * in the order the rules are declared.
 */
module Validators {
  import opened Domain
  import opened Dtos

  datatype ValidationFailure = IdRequired | ClientIdRequired | DateRequired | DateInFuture | AmountNotPositive
  {
    /** The request property the failing rule is declared for. */
    function PropertyName(): (name: string)
      // Every rule is declared for one of the four request properties.
      ensures name in {"Id", "ClientId", "DateTime", "Amount"}
    {
      match this
      case IdRequired => "Id"
      case ClientIdRequired => "ClientId"
      case DateRequired => "DateTime"
      case DateInFuture => "DateTime"
      case AmountNotPositive => "Amount"
    }

    /** The text the rule reports. */
    function Message(): (message: string)
      ensures |message| > 0
    {
      match this
      case IdRequired => "Transaction ID is required"
      case ClientIdRequired => "Client ID is required"
      case DateRequired => "Transaction date is required"
      case DateInFuture => "Transaction date cannot be in the future"
      case AmountNotPositive => "Amount must be positive"
    }

    /** The position of the rule in the validator. */
    function Rank(): nat
    {
      match this
      case IdRequired => 0
      case ClientIdRequired => 1
      case DateRequired => 2
      case DateInFuture => 3
      case AmountNotPositive => 4
    }
  }

  /** Whether some failure in `failures` is reported for `property`. */
  predicate HasErrorFor(failures: seq<ValidationFailure>, property: string)
  {
    exists f :: f in failures && f.PropertyName() == property
  }

  /** Each rule reports its own message, so a message names the rule behind it. */
  lemma MessagesIdentifyRules(f: ValidationFailure, g: ValidationFailure)
    ensures f.Message() == g.Message() <==> f == g
  {
  }

  /** An error is reported for a property exactly when one of that property's rules is broken. */
  lemma ErrorsByProperty(failures: seq<ValidationFailure>, request: TransactionRequest, now: DateTime)
    requires forall f :: f in failures <==> Breaks(request, now, f)
    ensures HasErrorFor(failures, "Id") <==> request.id == EmptyGuid
    ensures HasErrorFor(failures, "ClientId") <==> request.clientId == EmptyGuid
    ensures HasErrorFor(failures, "DateTime") <==> request.dateTime == DefaultDateTime || request.dateTime > now
    ensures HasErrorFor(failures, "Amount") <==> request.amount <= 0
  {
    assert IdRequired.PropertyName() == "Id";
    assert ClientIdRequired.PropertyName() == "ClientId";
    assert DateRequired.PropertyName() == "DateTime" && DateInFuture.PropertyName() == "DateTime";
    assert AmountNotPositive.PropertyName() == "Amount";
  }

  /** A well-formed request: both ids set, a set date that is not later than `now`, and a positive amount. */
  predicate IsValid(request: TransactionRequest, now: DateTime)
  {
    && request.id != EmptyGuid
    && request.clientId != EmptyGuid
    && request.dateTime != DefaultDateTime
    && request.dateTime <= now
    && request.amount > 0
  }

  /** The rules in declaration order. */
  const Rules: seq<ValidationFailure> := [IdRequired, ClientIdRequired, DateRequired, DateInFuture, AmountNotPositive]

  /** Whether `request` breaks the rule that reports `f`. */
  predicate Breaks(request: TransactionRequest, now: DateTime, f: ValidationFailure)
  {
    match f
    case IdRequired => request.id == EmptyGuid
    case ClientIdRequired => request.clientId == EmptyGuid
    case DateRequired => request.dateTime == DefaultDateTime
    case DateInFuture => request.dateTime > now
    case AmountNotPositive => request.amount <= 0
  }

  /** Check `rules` one after another, keeping the failure of each broken one. */
  function Check(rules: seq<ValidationFailure>, request: TransactionRequest, now: DateTime): (failures: seq<ValidationFailure>)
    requires forall i, j :: 0 <= i < j < |rules| ==> rules[i].Rank() < rules[j].Rank()
    ensures forall f :: f in failures <==> f in rules && Breaks(request, now, f)
    ensures forall i, j :: 0 <= i < j < |failures| ==> failures[i].Rank() < failures[j].Rank()
    decreases |rules|
  {
    if rules == [] then []
    else if Breaks(request, now, rules[0]) then
      var rest := Check(rules[1..], request, now);
      assert forall k :: 0 <= k < |rest| ==> rules[0].Rank() < rest[k].Rank() by {
        forall k | 0 <= k < |rest| ensures rules[0].Rank() < rest[k].Rank() {
          assert rest[k] in rules[1..];
          var i :| 0 <= i < |rules[1..]| && rules[1..][i] == rest[k];
          assert rules[i + 1] == rest[k];
        }
      }
      [rules[0]] + rest
    else Check(rules[1..], request, now)
  }

  /** Run every rule against `request`, with `now` the provider's `UtcNow`. */
  function Validate(request: TransactionRequest, now: DateTime): (failures: seq<ValidationFailure>)
    // A rule's failure is reported exactly when the request breaks it.
    ensures forall f :: f in failures <==> Breaks(request, now, f)
    ensures failures == [] <==> IsValid(request, now)
    // No rule reports twice, and failures come in rule order.
    ensures forall i, j :: 0 <= i < j < |failures| ==> failures[i].Rank() < failures[j].Rank()
    // Errors grouped by the property they are declared for.
    ensures HasErrorFor(failures, "Id") <==> request.id == EmptyGuid
    ensures HasErrorFor(failures, "ClientId") <==> request.clientId == EmptyGuid
    ensures HasErrorFor(failures, "DateTime") <==> request.dateTime == DefaultDateTime || request.dateTime > now
    ensures HasErrorFor(failures, "Amount") <==> request.amount <= 0
  {
    assert forall f: ValidationFailure :: f in Rules by {
      forall f: ValidationFailure ensures f in Rules {
        assert Rules[f.Rank()] == f;
      }
    }
    var failures := Check(Rules, request, now);
    ErrorsByProperty(failures, request, now);
    failures
  }
}
