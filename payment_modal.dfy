/** The payment modal of the plan board: picking a pending bit, choosing the
    account to pay into, building the UPI deep link
    (`upi://pay?pa=…&pn=…&tn=…&am=…&cu=INR`, the URI form of the NPCI UPI
    Linking Specification), and confirming the payment. */
module PaymentModal {
  import opened Common
  import opened Domain
  import opened Text
  import opened Lists

  datatype Step = Initial | Confirming

  /** The call `makePayment(bitId, selectedAccount || 'manual')`. */
  datatype PaymentRequest = PaymentRequest(bitId: string, payer: Payer)

  const GpayBase: string := "tez://upi/pay"
  const UpiBase: string := "upi://pay"

  /** The base of the link for the chosen app. */
  function LinkBase(appType: string): string
  {
    if appType == "gpay" then GpayBase else UpiBase
  }

  /** The query parameters of the link, in order. */
  function UpiParams(vpa: string, amount: int): seq<string>
  {
    ["pa=" + vpa, "pn=PiggyBankSave", "tn=GoalSave", "am=" + IntToString(amount), "cu=INR"]
  }

  /** The link text as the template literal writes it. */
  function UpiLink(base: string, vpa: string, amount: int): string
  {
    base + "?" + ("pa=" + vpa) + "&" + "pn=PiggyBankSave" + "&" + "tn=GoalSave"
    + "&" + ("am=" + IntToString(amount)) + "&" + "cu=INR"
  }

  lemma LinkIsJoin(base: string, vpa: string, amount: int)
    ensures UpiLink(base, vpa, amount) == Join([base, Join(UpiParams(vpa, amount), "&")], "?")
  {
    var pa, am := "pa=" + vpa, "am=" + IntToString(amount);
    var q := Join(UpiParams(vpa, amount), "&");
    JoinFive(pa, "pn=PiggyBankSave", "tn=GoalSave", am, "cu=INR", "&");
    assert [base, q][1..] == [q];
    var p := base + "?";
    var x2 := pa + "&";
    var x3 := x2 + "pn=PiggyBankSave";
    var x4 := x3 + "&";
    var x5 := x4 + "tn=GoalSave";
    var x6 := x5 + "&";
    var x7 := x6 + am;
    var x8 := x7 + "&";
    Regroup(p, x8, "cu=INR");
    Regroup(p, x7, "&");
    Regroup(p, x6, am);
    Regroup(p, x5, "&");
    Regroup(p, x4, "tn=GoalSave");
    Regroup(p, x3, "&");
    Regroup(p, x2, "pn=PiggyBankSave");
    Regroup(p, pa, "&");
  }

  /** Concatenation regroups: `x + (y + z)` is `(x + y) + z`. */
  lemma Regroup(x: string, y: string, z: string)
    ensures x + (y + z) == x + y + z
  {
  }

  /** Joining five texts puts the separator between each neighbouring
      pair. */
  lemma JoinFive(a: string, b: string, c: string, d: string, e: string, sep: string)
    ensures Join([a, b, c, d, e], sep) == a + sep + b + sep + c + sep + d + sep + e
  {
    assert [a, b, c, d, e][1..] == [b, c, d, e];
    assert [b, c, d, e][1..] == [c, d, e];
    assert [c, d, e][1..] == [d, e];
    assert [d, e][1..] == [e];
    var t3 := d + sep + e;
    var t2 := c + sep + t3;
    assert Join([d, e], sep) == t3;
    assert Join([c, d, e], sep) == t2;
    assert Join([a, b, c, d, e], sep) == a + sep + (b + sep + t2);
    var p1 := a + sep;
    var p2 := p1 + b + sep;
    var p3 := p2 + c + sep;
    JoinStep(p1, b, sep, t2);
    JoinStep(p2, c, sep, t3);
    JoinStep(p3, d, sep, e);
  }

  /** Moving one more part and separator to the left of a concatenation. */
  lemma JoinStep(prefix: string, x: string, sep: string, tail: string)
    ensures prefix + (x + sep + tail) == prefix + x + sep + tail
  {
    assert prefix + ((x + sep) + tail) == (prefix + (x + sep)) + tail;
    assert prefix + (x + sep) == prefix + x + sep;
  }

  /** A text with neither separator of the link. */
  predicate Plain(s: string)
  {
    forall k :: 0 <= k < |s| ==> s[k] != '?' && s[k] != '&'
  }

  lemma PlainCounts(s: string)
    requires Plain(s)
    ensures CountChar(s, '?') == 0 && CountChar(s, '&') == 0
  {
    DigitsWithout(s, '?');
    DigitsWithout(s, '&');
  }

  /** Every parameter is plain when the address is. */
  lemma ParamsPlain(vpa: string, amount: int)
    requires Plain(vpa)
    ensures forall i :: 0 <= i < 5 ==> Plain(UpiParams(vpa, amount)[i])
  {
    var a := IntToString(amount);
    IntToStringChars(amount);
    assert Plain("am=" + a);
    assert Plain("pa=" + vpa);
  }

  /** Read back, the link is the base, one '?', and the five parameters
      separated by '&': the payee address, the payee name, the note, the
      amount and the currency, provided the base holds no '?' and the
      address neither '?' nor '&'. */
  lemma UpiLinkFields(base: string, vpa: string, amount: int)
    requires forall k :: 0 <= k < |base| ==> base[k] != '?'
    requires Plain(vpa)
    ensures var halves := Split(UpiLink(base, vpa, amount), '?');
      |halves| == 2 && halves[0] == base && Split(halves[1], '&') == UpiParams(vpa, amount)
  {
    var q := Join(UpiParams(vpa, amount), "&");
    LinkIsJoin(base, vpa, amount);
    QueryFields(vpa, amount);
    DigitsWithout(base, '?');
    SplitJoin([base, q], '?');
  }

  /** The query part splits back into the five parameters and holds no
      '?'. */
  lemma QueryFields(vpa: string, amount: int)
    requires Plain(vpa)
    ensures var q := Join(UpiParams(vpa, amount), "&");
      Split(q, '&') == UpiParams(vpa, amount) && CountChar(q, '?') == 0
  {
    var p := UpiParams(vpa, amount);
    ParamsPlain(vpa, amount);
    forall i | 0 <= i < |p| ensures CountChar(p[i], '?') == 0 && CountChar(p[i], '&') == 0 {
      PlainCounts(p[i]);
    }
    SplitJoin(p, '&');
    JoinWithout(p, '&', '?');
  }

  /** `accounts.find(a => a.id === parseInt(selectedAccount))`. */
  function Receiver(accounts: seq<Account>, selected: Option<int>): Option<Account>
  {
    Find(accounts, (a: Account) => Some(a.id) == selected)
  }

  /** `selectedAccount || 'manual'`: an unset (or zero) account pays
      manually. */
  function PayerOf(selected: Option<int>): (p: Payer)
    ensures p.Manual? <==> selected.None? || selected.value == 0
  {
    if selected.None? || selected.value == 0 then Manual else FromAccount(selected.value)
  }

  predicate IsPaid(b: Bit)
  {
    b.status == Paid
  }

  /** The board's counter: paid bits over all bits. */
  function TicketCounter(plan: seq<Bit>): (r: (nat, nat))
    ensures r.0 <= r.1 == |plan|
  {
    (|Filter(plan, IsPaid)|, |plan|)
  }

  /** The counter counts exactly the paid bits. */
  lemma {:induction false} TicketCounterCountsPaid(plan: seq<Bit>)
    ensures TicketCounter(plan).0 == PaidCount(plan)
  {
    if plan != [] {
      TicketCounterCountsPaid(plan[..|plan| - 1]);
    }
  }

  /** The modal's state: the bit being paid (`None`: closed), the chosen
      account (`None`: the empty selection) and the step. */
  class Modal {
    var selectedBit: Option<Bit>
    var selectedAccount: Option<int>
    var step: Step

    constructor()
      ensures selectedBit == None && selectedAccount == None && step == Initial
    {
      selectedBit := None;
      selectedAccount := None;
      step := Initial;
    }

    /** `handleTileClick(bit)`: a paid bit changes nothing; any other opens the
        modal on it at the first step and preselects the first account, if
        there is one. */
    method TileClick(bit: Bit, accounts: seq<Account>)
      modifies this
      ensures bit.status == Paid ==>
        selectedBit == old(selectedBit) && selectedAccount == old(selectedAccount) && step == old(step)
      ensures bit.status != Paid ==>
        (selectedBit == Some(bit) && step == Initial
         && selectedAccount == (if |accounts| > 0 then Some(accounts[0].id) else old(selectedAccount)))
    {
      if bit.status == Paid {
        return;
      }
      selectedBit := Some(bit);
      step := Initial;
      if |accounts| > 0 {
        selectedAccount := Some(accounts[0].id);
      }
    }

    /** `handleCloseModal`: no bit, first step; the account choice stays. */
    method CloseModal()
      modifies this
      ensures selectedBit == None && step == Initial && selectedAccount == old(selectedAccount)
    {
      selectedBit := None;
      step := Initial;
    }

    /** `handleLaunchApp(appType)`: without an account matching the selection
        (or with one whose UPI id is empty) there is no link and nothing
        changes; otherwise the link for the bit's amount is returned and the
        modal waits for confirmation. */
    method LaunchApp(appType: string, accounts: seq<Account>) returns (link: Option<string>)
      requires selectedBit.Some?
      modifies this
      ensures selectedBit == old(selectedBit) && selectedAccount == old(selectedAccount)
      ensures var receiver := Receiver(accounts, selectedAccount);
        (link.None? <==> receiver.None? || receiver.value.upiId == [])
        && (link.None? ==> step == old(step))
        && (link.Some? ==>
              (step == Confirming
               && link.value == UpiLink(LinkBase(appType), receiver.value.upiId, selectedBit.value.amount)))
    {
      var receiver := Receiver(accounts, selectedAccount);
      if receiver.None? || receiver.value.upiId == [] {
        return None;
      }
      link := Some(UpiLink(LinkBase(appType), receiver.value.upiId, selectedBit.value.amount));
      step := Confirming;
    }

    /** `handleVerification(didPay)`: "done" asks the store to pay the bit
        from the chosen account (or manually) and closes the modal; "retry"
        goes back to the first step on the same bit. */
    method Verify(didPay: bool) returns (payment: Option<PaymentRequest>)
      requires selectedBit.Some?
      modifies this
      ensures selectedAccount == old(selectedAccount) && step == Initial
      ensures didPay ==> payment == Some(PaymentRequest(old(selectedBit).value.id, PayerOf(selectedAccount)))
                         && selectedBit == None
      ensures !didPay ==> payment == None && selectedBit == old(selectedBit)
    {
      if didPay {
        payment := Some(PaymentRequest(selectedBit.value.id, PayerOf(selectedAccount)));
        CloseModal();
      } else {
        payment := None;
        step := Initial;
      }
    }
  }
}
