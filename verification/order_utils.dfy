/** The status enumerations and the order-code generator of order/utils.py. */
module OrderUtils {

  /** `OrderStatus`: five choices, each stored as its upper-case value. */
  datatype OrderStatus = Pending | Processing | Shipping | Completed | Cancelled {
    function Value(): string {
      match this
      case Pending => "PENDING"
      case Processing => "PROCESSING"
      case Shipping => "SHIPPING"
      case Completed => "COMPLETED"
      case Cancelled => "CANCELLED"
    }
  }

  /** `PaymentStatus`: four choices. */
  datatype PaymentStatus = PaymentPending | Success | Failed | PaymentCancelled {
    function Value(): string {
      match this
      case PaymentPending => "PENDING"
      case Success => "SUCCESS"
      case Failed => "FAILED"
      case PaymentCancelled => "CANCELLED"
    }
  }

  const AllOrderStatuses: seq<OrderStatus> := [Pending, Processing, Shipping, Completed, Cancelled]
  const AllPaymentStatuses: seq<PaymentStatus> := [PaymentPending, Success, Failed, PaymentCancelled]

  /** The enumeration lists every status once, and the stored values are pairwise distinct (`@unique`). */
  lemma {:induction false} OrderStatusValuesDistinct()
    ensures |AllOrderStatuses| == 5
    ensures forall s: OrderStatus :: s in AllOrderStatuses
    ensures forall i, j :: 0 <= i < j < |AllOrderStatuses| ==> AllOrderStatuses[i].Value() != AllOrderStatuses[j].Value()
  {
    forall s: OrderStatus ensures s in AllOrderStatuses {
      match s
      case Pending => assert AllOrderStatuses[0] == s;
      case Processing => assert AllOrderStatuses[1] == s;
      case Shipping => assert AllOrderStatuses[2] == s;
      case Completed => assert AllOrderStatuses[3] == s;
      case Cancelled => assert AllOrderStatuses[4] == s;
    }
    forall i, j | 0 <= i < j < |AllOrderStatuses|
      ensures AllOrderStatuses[i].Value() != AllOrderStatuses[j].Value()
    {
      var a, b := AllOrderStatuses[i].Value(), AllOrderStatuses[j].Value();
      assert a[0] != b[0] || a[1] != b[1];
    }
  }

  lemma {:induction false} PaymentStatusValuesDistinct()
    ensures |AllPaymentStatuses| == 4
    ensures forall s: PaymentStatus :: s in AllPaymentStatuses
    ensures forall i, j :: 0 <= i < j < |AllPaymentStatuses| ==> AllPaymentStatuses[i].Value() != AllPaymentStatuses[j].Value()
  {
    forall s: PaymentStatus ensures s in AllPaymentStatuses {
      match s
      case PaymentPending => assert AllPaymentStatuses[0] == s;
      case Success => assert AllPaymentStatuses[1] == s;
      case Failed => assert AllPaymentStatuses[2] == s;
      case PaymentCancelled => assert AllPaymentStatuses[3] == s;
    }
    forall i, j | 0 <= i < j < |AllPaymentStatuses|
      ensures AllPaymentStatuses[i].Value() != AllPaymentStatuses[j].Value()
    {
      var a, b := AllPaymentStatuses[i].Value(), AllPaymentStatuses[j].Value();
      assert a[0] != b[0];
    }
  }

  /** `string.ascii_uppercase`: 'A' to 'Z'. */
  const Uppercase: string := seq(26, i requires 0 <= i < 26 => ('A' as int + i) as char)

  /** `string.digits`: '0' to '9'. */
  const Digits: string := seq(10, i requires 0 <= i < 10 => ('0' as int + i) as char)

  /** `string.ascii_uppercase + string.digits`. */
  const CodeAlphabet: string := Uppercase + Digits

  const DefaultCodeLength: nat := 20

  predicate IsCodeChar(c: char) {
    ('A' <= c <= 'Z') || ('0' <= c <= '9')
  }

  /**
   * `generate_code(length)`: `random.choices` draws `length` characters from the
   * alphabet. The draws are an oracle: `draw(i)` picks the alphabet position of the
   * i-th character.
   */
  function GenerateCode(draw: nat -> nat, length: nat := DefaultCodeLength): (code: string)
    ensures |code| == length
    ensures forall i :: 0 <= i < |code| ==> IsCodeChar(code[i])
  {
    var alphabet := CodeAlphabet;
    assert forall k :: 0 <= k < |alphabet| ==> IsCodeChar(alphabet[k]);
    seq(length, i requires 0 <= i => alphabet[draw(i) % |alphabet|])
  }

  /** Every alphabet character is reachable, so only the shape of a code can be promised. */
  lemma {:induction false} GenerateCodeCoversAlphabet(c: char)
    requires IsCodeChar(c)
    ensures exists draw: nat -> nat :: GenerateCode(draw, 1) == [c]
  {
    var alphabet := CodeAlphabet;
    var k := if 'A' <= c <= 'Z' then (c as int - 'A' as int) else 26 + (c as int - '0' as int);
    assert alphabet[k] == c;
    var draw: nat -> nat := _ => k;
    assert GenerateCode(draw, 1) == [c];
  }
}
