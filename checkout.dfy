/** The order logic of the checkout page: the cart total, the UPI payment link shown as
    a QR code, the validation chain run when the customer confirms payment, the filter on
    the transaction-id field, and the page state (`address`, `txnId`, `error`,
    `isSubmitting`) that placing an order updates. */
module Checkout {
  import opened Wrappers
  import opened JsText

  /** One line of the loaded cart, in the shape the cart endpoint returns it. Prices and
      quantities are integers. */
  datatype CartLine = CartLine(productId: int, name: string, price: int, img: string, quantity: int)

  function LineAmount(line: CartLine): int {
    line.price * line.quantity
  }

  // ---------------------------------------------------------------- cart total

  /** `lines.reduce((total, item) => total + item.price * item.quantity, acc)`:
      a left fold, first line first. */
  function Reduce(lines: seq<CartLine>, acc: int): int
    decreases |lines|
  {
    if lines == [] then acc else Reduce(lines[1..], acc + LineAmount(lines[0]))
  }

  /** Reference definition: the sum of price times quantity over the lines. */
  function SumOfLines(lines: seq<CartLine>): int {
    if lines == [] then 0 else LineAmount(lines[0]) + SumOfLines(lines[1..])
  }

  lemma {:induction false} ReduceIsSum(lines: seq<CartLine>, acc: int)
    ensures Reduce(lines, acc) == acc + SumOfLines(lines)
  {
    if lines != [] {
      ReduceIsSum(lines[1..], acc + LineAmount(lines[0]));
    }
  }

  /** `totalAmount`: the reduce started at 0. */
  function CartTotal(cart: seq<CartLine>): (total: int)
    ensures total == SumOfLines(cart)
    ensures cart == [] ==> total == 0
  {
    ReduceIsSum(cart, 0);
    Reduce(cart, 0)
  }

  lemma {:induction false} SumOfLinesAppend(a: seq<CartLine>, b: seq<CartLine>)
    ensures SumOfLines(a + b) == SumOfLines(a) + SumOfLines(b)
  {
    if a == [] {
      assert a + b == b;
    } else {
      assert (a + b)[1..] == a[1..] + b;
      SumOfLinesAppend(a[1..], b);
    }
  }

  lemma CartTotalAppend(a: seq<CartLine>, b: seq<CartLine>)
    ensures CartTotal(a + b) == CartTotal(a) + CartTotal(b)
  {
    SumOfLinesAppend(a, b);
  }

  lemma {:induction false} SumOfLinesNonNegative(lines: seq<CartLine>)
    requires forall i :: 0 <= i < |lines| ==> lines[i].price >= 0 && lines[i].quantity >= 0
    ensures SumOfLines(lines) >= 0
  {
    if lines != [] {
      SumOfLinesNonNegative(lines[1..]);
      assert LineAmount(lines[0]) >= 0;
    }
  }

  /** A cart of non-negative prices and quantities never totals below zero. */
  lemma CartTotalNonNegative(cart: seq<CartLine>)
    requires forall i :: 0 <= i < |cart| ==> cart[i].price >= 0 && cart[i].quantity >= 0
    ensures CartTotal(cart) >= 0
  {
    SumOfLinesNonNegative(cart);
  }

  // ---------------------------------------------------------------- UPI link

  const MerchantUpi: string := "yourname@upi"
  const MerchantName: string := "Sanchi Wellness"

  /** Everything in the link before the amount. */
  function UpiLinkHead(): string {
    "upi://pay?pa=" + MerchantUpi + "&pn=" + MerchantName + "&am="
  }

  const UpiLinkTail: string := "&cu=INR"

  /** `upiLink`: the template filled in without any escaping (the space in the merchant
      name stays a space). */
  function UpiLink(total: int): string {
    UpiLinkHead() + NumberToString(total) + UpiLinkTail
  }

  /** Reads the `am=` value back out of a link shaped like `UpiLink`'s. */
  function UpiAmount(link: string): Option<int> {
    var head, tail := UpiLinkHead(), UpiLinkTail;
    if |link| >= |head| + |tail| && link[..|head|] == head && link[|link| - |tail|..] == tail
    then ParseInteger(link[|head|..|link| - |tail|])
    else None
  }

  /** Cuts `s` at every `sep`, as `s.split(sep)` does. */
  function SplitOn(s: string, sep: char): (parts: seq<string>)
    ensures |parts| >= 1
  {
    if s == [] then [[]]
    else
      var rest := SplitOn(s[1..], sep);
      if s[0] == sep then [[]] + rest else [[s[0]] + rest[0]] + rest[1..]
  }

  /** Cuts a `key=value` parameter at its first `=`. */
  function SplitPair(s: string): (string, string) {
    if s == [] then ([], [])
    else if s[0] == '=' then ([], s[1..])
    else var (k, v) := SplitPair(s[1..]); ([s[0]] + k, v)
  }

  /** Each parameter cut into its key and its value. */
  function Pairs(params: seq<string>): seq<(string, string)> {
    if params == [] then [] else [SplitPair(params[0])] + Pairs(params[1..])
  }

  const UpiScheme: string := "upi://pay?"

  /** The raw (undecoded) key/value pairs of the query of a `upi://pay?` link. */
  function UpiQuery(link: string): Option<seq<(string, string)>> {
    if |link| >= |UpiScheme| && link[..|UpiScheme|] == UpiScheme
    then Some(Pairs(SplitOn(link[|UpiScheme|..], '&')))
    else None
  }

  lemma {:induction false} SplitOnFirst(x: string, sep: char, rest: string)
    requires sep !in x
    ensures SplitOn(x + [sep] + rest, sep) == [x] + SplitOn(rest, sep)
  {
    if x == [] {
      assert x + [sep] + rest == [sep] + rest;
      assert ([sep] + rest)[1..] == rest;
    } else {
      assert (x + [sep] + rest)[1..] == x[1..] + [sep] + rest;
      SplitOnFirst(x[1..], sep, rest);
      assert [x[0]] + x[1..] == x;
    }
  }

  lemma {:induction false} SplitOnNone(x: string, sep: char)
    requires sep !in x
    ensures SplitOn(x, sep) == [x]
  {
    if x != [] {
      SplitOnNone(x[1..], sep);
      assert [x[0]] + x[1..] == x;
    }
  }

  lemma {:induction false} SplitPairAt(k: string, v: string)
    requires '=' !in k
    ensures SplitPair(k + "=" + v) == (k, v)
  {
    if k == [] {
      assert k + "=" + v == "=" + v;
      assert ("=" + v)[1..] == v;
    } else {
      assert (k + "=" + v)[1..] == k[1..] + "=" + v;
      SplitPairAt(k[1..], v);
      assert [k[0]] + k[1..] == k;
    }
  }

  /** The decimal text of a number holds no `&` and no `=`. */
  lemma NumberTextIsPlain(n: int)
    ensures '&' !in NumberToString(n) && '=' !in NumberToString(n)
  {
    var d := NatToDecimal(if n < 0 then -n else n);
    assert forall i :: 0 <= i < |d| ==> IsAsciiDigit(d[i]);
    if n < 0 {
      assert NumberToString(n) == "-" + d;
    }
  }

  /** Four `&`-free parameters joined by `&` split back into those four. */
  lemma SplitFour(p1: string, p2: string, p3: string, p4: string)
    requires '&' !in p1 && '&' !in p2 && '&' !in p3 && '&' !in p4
    ensures SplitOn(p1 + "&" + p2 + "&" + p3 + "&" + p4, '&') == [p1, p2, p3, p4]
  {
    var r3 := p3 + ['&'] + p4;
    var r2 := p2 + ['&'] + r3;
    assert "&" == ['&'];
    assert p1 + "&" + p2 + "&" + p3 + "&" + p4 == p1 + ['&'] + r2;
    SplitOnNone(p4, '&');
    SplitOnFirst(p3, '&', p4);
    SplitOnFirst(p2, '&', r3);
    SplitOnFirst(p1, '&', r2);
  }

  /** Regrouping a concatenation of nine pieces. This is proof plumbing only, with no
      counterpart in the page: it lets `UpiLinkLayout` compare short literals and
      re-associate the rest over plain strings, which keeps that proof cheap. */
  lemma Regroup(s: string, h1: string, u: string, h2: string, n: string, h3: string, a: string,
                t: string, e: string, amp: string, k1: string, k2: string, k3: string, k4: string,
                v4: string)
    requires h1 == s + k1 + e && h2 == amp + k2 + e && h3 == amp + k3 + e
    requires t == amp + k4 + e + v4
    ensures h1 + u + h2 + n + h3 + a + t
         == s + (k1 + e + u) + amp + (k2 + e + n) + amp + (k3 + e + a) + amp + (k4 + e + v4)
  {
  }

  /** The link is the scheme followed by its four `key=value` parameters. */
  lemma UpiLinkLayout(total: int)
    ensures UpiLink(total)
         == UpiScheme + ("pa" + "=" + MerchantUpi) + "&" + ("pn" + "=" + MerchantName) + "&"
            + ("am" + "=" + NumberToString(total)) + "&" + ("cu" + "=" + "INR")
  {
    assert "upi://pay?pa=" == UpiScheme + "pa" + "=";
    assert "&pn=" == "&" + "pn" + "=";
    assert "&am=" == "&" + "am" + "=";
    assert UpiLinkTail == "&" + "cu" + "=" + "INR";
    Regroup(UpiScheme, "upi://pay?pa=", MerchantUpi, "&pn=", MerchantName, "&am=",
            NumberToString(total), UpiLinkTail, "=", "&", "pa", "pn", "am", "cu", "INR");
  }

  /** A link that starts with the scheme has the rest of its text as its query. */
  lemma UpiQueryOf(q: string)
    ensures UpiQuery(UpiScheme + q) == Some(Pairs(SplitOn(q, '&')))
  {
    assert (UpiScheme + q)[..|UpiScheme|] == UpiScheme;
    assert (UpiScheme + q)[|UpiScheme|..] == q;
  }

  /** A query of four `key=value` parameters, none of whose keys holds `=` and none of
      whose parts holds `&`, reads back as those four pairs. */
  lemma QueryOfFour(k1: string, v1: string, k2: string, v2: string,
                    k3: string, v3: string, k4: string, v4: string)
    requires '=' !in k1 && '=' !in k2 && '=' !in k3 && '=' !in k4
    requires '&' !in k1 && '&' !in k2 && '&' !in k3 && '&' !in k4
    requires '&' !in v1 && '&' !in v2 && '&' !in v3 && '&' !in v4
    ensures UpiQuery(UpiScheme + (k1 + "=" + v1) + "&" + (k2 + "=" + v2) + "&"
                     + (k3 + "=" + v3) + "&" + (k4 + "=" + v4))
         == Some([(k1, v1), (k2, v2), (k3, v3), (k4, v4)])
  {
    var p1, p2, p3, p4 := k1 + "=" + v1, k2 + "=" + v2, k3 + "=" + v3, k4 + "=" + v4;
    var q := p1 + "&" + p2 + "&" + p3 + "&" + p4;
    assert UpiScheme + p1 + "&" + p2 + "&" + p3 + "&" + p4 == UpiScheme + q;
    UpiQueryOf(q);
    SplitFour(p1, p2, p3, p4);
    SplitPairAt(k1, v1);
    SplitPairAt(k2, v2);
    SplitPairAt(k3, v3);
    SplitPairAt(k4, v4);
    assert Pairs([p1, p2, p3, p4]) == [SplitPair(p1)] + Pairs([p2, p3, p4]);
    assert Pairs([p2, p3, p4]) == [SplitPair(p2)] + Pairs([p3, p4]);
    assert Pairs([p3, p4]) == [SplitPair(p3)] + Pairs([p4]);
    assert Pairs([p4]) == [SplitPair(p4)] + Pairs([]);
    assert Pairs([p1, p2, p3, p4]) == [(k1, v1), (k2, v2), (k3, v3), (k4, v4)];
    assert SplitOn(q, '&') == [p1, p2, p3, p4];
    assert UpiQuery(UpiScheme + q) == Some([(k1, v1), (k2, v2), (k3, v3), (k4, v4)]);
  }

  /** Split at `&` and then at `=`, the query of the link is the payee address, the payee
      name, the total and the currency, in that order. */
  lemma UpiLinkQuery(total: int)
    ensures UpiQuery(UpiLink(total))
         == Some([("pa", MerchantUpi), ("pn", MerchantName), ("am", NumberToString(total)), ("cu", "INR")])
  {
    UpiLinkLayout(total);
    NumberTextIsPlain(total);
    assert '&' !in MerchantUpi && '&' !in MerchantName && '&' !in "INR";
    QueryOfFour("pa", MerchantUpi, "pn", MerchantName, "am", NumberToString(total), "cu", "INR");
  }

  /** The payment app reads back exactly the cart total from the link. */
  lemma UpiLinkCarriesTotal(total: int)
    ensures UpiAmount(UpiLink(total)) == Some(total)
  {
    var head, body, tail := UpiLinkHead(), NumberToString(total), UpiLinkTail;
    var link := head + body + tail;
    assert link[..|head|] == head;
    assert link[|link| - |tail|..] == tail;
    assert link[|head|..|link| - |tail|] == body;
    NumberToStringRoundTrip(total);
  }

  /** Different totals give different links. */
  lemma UpiLinkInjective(t1: int, t2: int)
    requires UpiLink(t1) == UpiLink(t2)
    ensures t1 == t2
  {
    UpiLinkCarriesTotal(t1);
    UpiLinkCarriesTotal(t2);
  }

  // ---------------------------------------------------------------- validation

  const MsgBlankAddress: string := "Please enter a valid shipping address."
  const MsgShortAddress: string := "Address is too short. Please provide full details."
  const MsgBadTxnId: string := "Invalid Transaction ID. Please enter the 12-digit UTR/Ref No."
  const MsgOrderFailed: string := "Order failed. Please try again."
  const MsgConnection: string := "Server connection failed. Please check your internet."

  const MinAddressLength: nat := 10
  const UtrLength: nat := 12

  /** A matcher for the pattern `^\d{n}$`: exactly `n` characters of class `\d`, then
      the end of the input. */
  predicate MatchesDigitRun(t: string, n: nat) {
    if n == 0 then t == [] else t != [] && IsAsciiDigit(t[0]) && MatchesDigitRun(t[1..], n - 1)
  }

  lemma {:induction false} MatchesDigitRunIff(t: string, n: nat)
    ensures MatchesDigitRun(t, n) <==> |t| == n && AllDigits(t)
  {
    if n > 0 && t != [] {
      MatchesDigitRunIff(t[1..], n - 1);
      if IsAsciiDigit(t[0]) && AllDigits(t[1..]) {
        assert forall i :: 0 < i < |t| ==> t[i] == t[1..][i - 1];
      }
    }
  }

  /** A UTR reference number: twelve ASCII digits. */
  predicate IsUtr(t: string) {
    |t| == UtrLength && AllDigits(t)
  }

  /** `txnId && /^\d{12}$/.test(txnId)` */
  function TxnIdAccepted(t: string): (ok: bool)
    ensures ok <==> IsUtr(t)
    ensures t == [] ==> !ok
  {
    MatchesDigitRunIff(t, UtrLength);
    !(t == [] || !MatchesDigitRun(t, UtrLength))
  }

  /** The outcome of the checks: go ahead, or the first check that failed. */
  datatype Verdict = Proceed | BlankAddress | ShortAddress | BadTxnId {
    function Message(): string {
      match this
      case Proceed => ""
      case BlankAddress => MsgBlankAddress
      case ShortAddress => MsgShortAddress
      case BadTxnId => MsgBadTxnId
    }
  }

  /** The checks of `handlePlaceOrder`, in order; the first failure wins. The length
      check reads the untrimmed address. */
  function ValidateOrder(address: string, txnId: string): Verdict {
    if Trim(address) == [] then BlankAddress
    else if |address| < MinAddressLength then ShortAddress
    else if !TxnIdAccepted(txnId) then BadTxnId
    else Proceed
  }

  /** What each verdict means, in both directions. */
  lemma ValidateOrderSpec(address: string, txnId: string)
    ensures ValidateOrder(address, txnId) == BlankAddress <==> AllWhitespace(address)
    ensures ValidateOrder(address, txnId) == ShortAddress
        <==> !AllWhitespace(address) && |address| < MinAddressLength
    ensures ValidateOrder(address, txnId) == BadTxnId
        <==> !AllWhitespace(address) && |address| >= MinAddressLength && !IsUtr(txnId)
    ensures ValidateOrder(address, txnId) == Proceed
        <==> !AllWhitespace(address) && |address| >= MinAddressLength && IsUtr(txnId)
  {
    TrimBlankIff(address);
  }

  /** Padding counts toward the length: nine spaces and one letter make a valid address. */
  lemma PaddedAddressPasses()
    ensures ValidateOrder("         x", "123456789012") == Proceed
  {
    var a := "         x";
    assert !IsJsWhitespace(a[9]);
    assert IsUtr("123456789012");
    ValidateOrderSpec(a, "123456789012");
  }

  // ---------------------------------------------------------------- submission

  /** The JSON body posted to the checkout endpoint. */
  datatype OrderRequest = OrderRequest(
    userId: int, totalAmount: int, transactionId: string, address: string, cartItems: seq<CartLine>)

  /** What came back from posting the order: a response with its `ok` flag and the
      `error` field of its JSON body, or a failure that lands in the `catch`: the server
      was not reached, the body was not JSON, or a non-ok body was `null`. */
  datatype Reply = Response(ok: bool, errorText: Option<string>) | TransportFailure

  /** The `error` text a finished attempt leaves on the page. */
  function ReplyError(reply: Reply): (e: string)
    ensures e == "" <==> reply.Response? && reply.ok
    ensures reply.Response? && !reply.ok && reply.errorText.Some? && reply.errorText.value != ""
            ==> e == reply.errorText.value
    ensures reply.Response? && !reply.ok && (reply.errorText.None? || reply.errorText.value == "")
            ==> e == MsgOrderFailed
    ensures reply.TransportFailure? ==> e == MsgConnection
  {
    match reply
    case Response(ok, errorText) =>
      if ok then ""
      else if errorText.Some? && errorText.value != "" then errorText.value
      else MsgOrderFailed
    case TransportFailure => MsgConnection
  }

  /** The transaction-id field as its filter keeps it: digits only, at most twelve. */
  predicate TxnIdWellFormed(t: string) {
    |t| <= UtrLength && AllDigits(t)
  }

  /** For a well-formed field, the UTR check is only a length check. */
  lemma WellFormedTxnIdAccepted(t: string)
    requires TxnIdWellFormed(t)
    ensures TxnIdAccepted(t) <==> |t| == UtrLength
  {
  }

  /** The checkout page once the signed-in user and the cart have been loaded. */
  class CheckoutPage {
    const userId: int
    const cart: seq<CartLine>
    var address: string
    var txnId: string
    var error: string
    var isSubmitting: bool

    ghost predicate Valid()
      reads this
    {
      TxnIdWellFormed(txnId)
    }

    /** `totalAmount` of the loaded cart. */
    function TotalAmount(): (total: int)
      reads this
      ensures total == SumOfLines(cart)
    {
      CartTotal(cart)
    }

    /** `upiLink` as the QR code shows it: its query names the merchant, this page's
        total and the currency, and its amount reads back as the total. */
    function PaymentLink(): (link: string)
      reads this
      ensures UpiQuery(link)
           == Some([("pa", MerchantUpi), ("pn", MerchantName), ("am", NumberToString(TotalAmount())),
                    ("cu", "INR")])
      ensures UpiAmount(link) == Some(TotalAmount())
    {
      UpiLinkQuery(TotalAmount());
      UpiLinkCarriesTotal(TotalAmount());
      UpiLink(TotalAmount())
    }

    constructor (userId: int, cart: seq<CartLine>)
      ensures Valid()
      ensures this.userId == userId && this.cart == cart
      ensures address == "" && txnId == "" && error == "" && !isSubmitting
    {
      this.userId := userId;
      this.cart := cart;
      address := "";
      txnId := "";
      error := "";
      isSubmitting := false;
    }

    /** Typing in the address box. */
    method EditAddress(value: string)
      modifies this`address
      ensures address == value
    {
      address := value;
    }

    /** Typing in the transaction-id box: the non-digits are stripped, and the result
        replaces the field only when it is at most twelve long. */
    method EditTxnId(raw: string)
      requires Valid()
      modifies this`txnId
      ensures Valid()
      ensures txnId == if |DigitsOnly(raw)| <= UtrLength then DigitsOnly(raw) else old(txnId)
    {
      var value := DigitsOnly(raw);
      if |value| <= UtrLength {
        txnId := value;
      }
    }

    /** `handlePlaceOrder` up to the request: the error is cleared, the checks run, and
        only when all pass is `isSubmitting` raised and the body built. The button is
        disabled while a submission is in flight. */
    method BeginPlaceOrder() returns (request: Option<OrderRequest>)
      requires Valid() && !isSubmitting
      modifies this`error, this`isSubmitting
      ensures Valid()
      ensures ValidateOrder(address, txnId) == BadTxnId ==> |txnId| < UtrLength
      ensures request.None? <==> ValidateOrder(address, txnId) != Proceed
      ensures ValidateOrder(address, txnId) != Proceed ==>
                error == ValidateOrder(address, txnId).Message() && !isSubmitting
      ensures ValidateOrder(address, txnId) == Proceed ==>
                error == "" && isSubmitting
                && request == Some(OrderRequest(userId, CartTotal(cart), txnId, address, cart))
    {
      error := "";
      var verdict := ValidateOrder(address, txnId);
      if verdict != Proceed {
        error := verdict.Message();
        if verdict == BadTxnId {
          WellFormedTxnIdAccepted(txnId);
        }
        return None;
      }
      isSubmitting := true;
      request := Some(OrderRequest(userId, TotalAmount(), txnId, address, cart));
    }

    /** `handlePlaceOrder` after the request: the reply sets the error text, and the
        `finally` block lowers `isSubmitting` whatever happened. */
    method FinishPlaceOrder(reply: Reply) returns (placed: bool)
      requires isSubmitting
      modifies this`error, this`isSubmitting
      ensures !isSubmitting
      ensures placed <==> reply.Response? && reply.ok
      ensures error == if placed then old(error) else ReplyError(reply)
    {
      match reply {
        case Response(ok, errorText) =>
          if ok {
            placed := true;
          } else {
            placed := false;
            error := ReplyError(reply);
          }
        case TransportFailure =>
          placed := false;
          error := ReplyError(reply);
      }
      isSubmitting := false;
    }

    /** One whole click on "Confirm Payment", with `reply` standing for the server's
        answer to the request, if one is sent. */
    method PlaceOrder(reply: Reply) returns (request: Option<OrderRequest>, placed: bool)
      requires Valid() && !isSubmitting
      modifies this`error, this`isSubmitting
      ensures Valid() && !isSubmitting
      ensures ValidateOrder(address, txnId) == BadTxnId ==> |txnId| < UtrLength && !placed
      ensures request.None? <==> ValidateOrder(address, txnId) != Proceed
      ensures ValidateOrder(address, txnId) != Proceed ==>
                error == ValidateOrder(address, txnId).Message() && !placed
      ensures ValidateOrder(address, txnId) == Proceed ==>
                request == Some(OrderRequest(userId, CartTotal(cart), txnId, address, cart))
                && placed == (reply.Response? && reply.ok)
                && error == ReplyError(reply)
    {
      request := BeginPlaceOrder();
      if request.Some? {
        placed := FinishPlaceOrder(reply);
      } else {
        placed := false;
      }
    }
  }
}
