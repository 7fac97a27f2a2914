/**
 * categorize_transaction: the amount check that precedes the model call, the request the
 * prompt is built from, and the parsing of the "<main>: <sub>" reply.
 */
module Classifier {
  import opened Wrappers
  import opened Text
  import opened Decimal
  import opened Schema

  /** The transaction fields the prompt interpolates; the amount in cents as float() read it. */
  datatype Request = Request(description: string, amount: int, category: string, transactionType: string)

  /**
   * The chat-completion call. Its arguments are the call's position in the run and the request;
   * Some(text) is the reply's content, None stands for any exception the call raises
   * (including a reply without content, on which strip() fails).
   */
  type Oracle = (nat, Request) -> Option<string>

  /**
   * Reads the reply: the stripped content is split at its first ':'; the main category is
   * the stripped head and the subcategory the stripped tail, or "general" when there is no
   * ':'. A failed call gives ("Unknown", "error").
   */
  function ParseReply(reply: Option<string>): (r: (string, string))
    ensures reply.None? ==> r == ("Unknown", "error")
    ensures ':' !in r.0
    ensures Stripped(r.0) && Stripped(r.1)
  {
    match reply
    case None => ("Unknown", "error")
    case Some(content) =>
      var categorization := Strip(content);
      var parts := SplitFirst(categorization, ':');
      StripLacks(parts.0, ':');
      (Strip(parts.0), if parts.1.Some? then Strip(parts.1.value) else "general")
  }

  /** A reply without ':' once stripped is all main category, with the subcategory "general". */
  lemma ParseReplyNoColon(content: string)
    requires ':' !in Strip(content)
    ensures ParseReply(Some(content)) == (Strip(content), "general")
  {
    SplitFirstAbsent(Strip(content), ':');
  }

  /**
   * Any reply with ':' once stripped: the main category is the stripped text before the first
   * ':', the subcategory the stripped text after it, however the parts are spaced.
   */
  lemma ParseReplyColon(content: string)
    requires ':' in Strip(content)
    ensures exists a, b :: Strip(content) == a + ":" + b && ':' !in a && ParseReply(Some(content)) == (Strip(a), Strip(b))
  {
    var p := SplitFirst(Strip(content), ':');
    if p.1.None? {
      assert false;
    }
    var a, b := p.0, p.1.value;
    assert Strip(content) == a + ":" + b;
    assert ParseReply(Some(content)) == (Strip(a), Strip(b));
  }

  /** The reply format the prompt asks for: "<main>: <sub>". */
  function Render(main: string, sub: string): string {
    main + ": " + sub
  }

  /** A reply in the requested format is read back as the category pair it names. */
  lemma ParseRenderedReply(main: string, sub: string)
    requires ':' !in main && Stripped(main) && Stripped(sub)
    ensures ParseReply(Some(Render(main, sub))) == (main, sub)
  {
    var reply := Render(main, sub);
    if sub == [] {
      var trimmed := main + [':'];
      assert reply == trimmed + [' '];
      StripTrailingBlank(trimmed);
      SplitFirstJoined(main, ':', []);
      assert trimmed == main + [':'] + [];
    } else {
      assert Stripped(reply);
      assert reply == main + [':'] + ([' '] + sub);
      SplitFirstJoined(main, ':', [' '] + sub);
      StripLeadingBlank(sub);
    }
  }

  /** The request categorize_transaction sends for a transaction whose amount reads as `cents`. */
  function RequestFor(t: Row, cents: int): Request
    requires "Description" in t
  {
    Request(t["Description"], cents, Get(t, "Category", ""), Get(t, "Type", ""))
  }

  /**
   * categorize_transaction for call number `index`. Description and Amount are looked up
   * first (a KeyError ends the run), then the amount is read with float(), retrying without
   * '$' and ',' (a ValueError about the cleaned text ends the run). Only the model call itself
   * is guarded.
   */
  function Categorize(index: nat, t: Row, oracle: Oracle): (r: Result<(string, string), Failure>)
    ensures "Description" !in t ==> r == Failure(MissingField("Description"))
    ensures "Description" in t && "Amount" !in t ==> r == Failure(MissingField("Amount"))
    ensures r.Success? <==> "Description" in t && "Amount" in t && ParseAmountField(t["Amount"]).Some?
    ensures "Description" in t && "Amount" in t && ParseAmountField(t["Amount"]).None? ==>
      r == Failure(BadAmount(RemoveAll(RemoveAll(t["Amount"], '$'), ',')))
    ensures r.Success? ==> ':' !in r.value.0 && Stripped(r.value.0) && Stripped(r.value.1)
    ensures r.Success? ==> r.value == ParseReply(oracle(index, RequestFor(t, ParseAmountField(t["Amount"]).value)))
  {
    if "Description" !in t then Failure(MissingField("Description"))
    else if "Amount" !in t then Failure(MissingField("Amount"))
    else
      match ParseAmountField(t["Amount"])
      case None => Failure(BadAmount(RemoveAll(RemoveAll(t["Amount"], '$'), ',')))
      case Some(cents) => Success(ParseReply(oracle(index, RequestFor(t, cents))))
  }

  /** A failed model call is not an error of the run: the transaction is filed under Unknown / error. */
  lemma CategorizeCallFails(index: nat, t: Row, oracle: Oracle)
    requires "Description" in t && "Amount" in t && ParseAmountField(t["Amount"]).Some?
    requires oracle(index, RequestFor(t, ParseAmountField(t["Amount"]).value)).None?
    ensures Categorize(index, t, oracle) == Success(("Unknown", "error"))
  {
  }

  /** A well-formed reply decides the category pair, and the request carries the amount as float() read it. */
  lemma CategorizeRendered(index: nat, t: Row, oracle: Oracle, main: string, sub: string)
    requires "Description" in t && "Amount" in t && ParseAmountField(t["Amount"]).Some?
    requires ':' !in main && Stripped(main) && Stripped(sub)
    requires oracle(index, RequestFor(t, ParseAmountField(t["Amount"]).value)) == Some(Render(main, sub))
    ensures Categorize(index, t, oracle) == Success((main, sub))
  {
    ParseRenderedReply(main, sub);
  }

  /** Dollar signs and thousands separators do not stop the classifier: "$1,200.00" is sent as 120000 cents. */
  lemma CategorizeCurrencyText(index: nat, t: Row, oracle: Oracle)
    requires "Description" in t && "Amount" in t && t["Amount"] == "$1,200.00"
    ensures Categorize(index, t, oracle).Success?
    ensures Categorize(index, t, oracle) == Success(ParseReply(oracle(index, RequestFor(t, 120000))))
  {
    DollarsAndCommasStripped();
  }
}
