/** The inventory list component: its state, the event handlers that update
    it step by step, and what it renders. The answers of the API wrappers and
    of window.confirm are inputs to the handlers; a reload that a handler
    starts without awaiting it is taken to finish before the handler is
    observed again. The field `calls` records, in order, which wrappers the
    component invoked. */
module SweetsView {
  import opened Common
  import opened Models
  import opened ApiClient
  import JsNumbers

  /** A wrapper invocation made by the component. */
  datatype ApiCall =
    | FetchAll
    | Search(query: string)
    | Purchase(id: int)
    | Restock(id: int, amount: int)
    | Remove(id: int)

  const OnlyAdminsRestock := "Error: Only Admins can restock inventory."
  const OnlyAdminsDelete := "Error: Only Admins can delete a sweet."
  const OnlyAdminsEdit := "Error: Only Admins can edit a sweet."
  const RestockNotPositive := "Restock amount must be a positive number."

  /** loadSweets' dispatch: search when the query is non-empty, else list all. */
  function LoadCall(query: string): (c: ApiCall)
    ensures c == FetchAll <==> query == ""
    ensures c.Search? ==> c.query == query
  {
    if query != "" then Search(query) else FetchAll
  }

  /** `parseInt(restockAmount[id]) || 0`: a missing entry is undefined and
      parses as NaN; NaN and 0 both give 0. */
  function RestockAmount(input: Option<string>): (amount: int)
    ensures amount != 0 <==>
      input.Some? && JsNumbers.ParseInt(input.value).Some? && JsNumbers.ParseInt(input.value).value != 0
    ensures amount != 0 ==> amount == JsNumbers.ParseInt(input.value).value
  {
    if input.None? then 0
    else match JsNumbers.ParseInt(input.value)
      case None => 0
      case Some(v) => v
  }

  /** What the restock box yields for a typed number: the number itself; an
      empty or missing box yields 0, and text after the digits is ignored. */
  lemma RestockAmountOfTypedNumber(n: nat, rest: string)
    requires rest == [] || !IsDigit(rest[0])
    requires n == 0 ==> rest == [] || (rest[0] != 'x' && rest[0] != 'X')
    ensures RestockAmount(Some(Decimal(n) + rest)) == n
    ensures RestockAmount(Some("-" + (Decimal(n) + rest))) == -(n as int)
    ensures RestockAmount(Some("")) == 0 && RestockAmount(None) == 0
  {
    JsNumbers.ParseIntReadsDecimal(n, rest);
    RestockAmountOfParsed(Decimal(n) + rest, n);
    JsNumbers.ParseIntReadsNegatedDecimal(n, rest);
    RestockAmountOfParsed("-" + (Decimal(n) + rest), -(n as int));
    JsNumbers.ParseIntOfNonNumeric("");
  }

  /** A box whose text parses to `v` yields `v`. */
  lemma RestockAmountOfParsed(text: string, v: int)
    requires JsNumbers.ParseInt(text) == Some(v)
    ensures RestockAmount(Some(text)) == v
  {
  }

  /** The amount typed in the restock box of sweet `id`. */
  function TypedAmount(boxes: map<int, string>, id: int): int {
    RestockAmount(if id in boxes then Some(boxes[id]) else None)
  }

  function PurchaseFailedMessage(name: string, message: string): string {
    "Purchase failed for " + name + ": " + message
  }

  function RestockFailedMessage(name: string, message: string): string {
    "Restock failed for " + name + ". Error: " + message
  }

  /** What the list area shows. */
  datatype Listing = NoSweets(text: string) | NoResults(text: string) | Items(sweets: seq<Sweet>)

  /** The list area: an empty list reads "No sweets available." (with a hint
      for admins) when no search is active and "No results found" otherwise. */
  function ListingFor(sweets: seq<Sweet>, searchTerm: string, isAdmin: bool): (l: Listing)
    ensures l.Items? <==> |sweets| > 0
    ensures l.Items? ==> l.sweets == sweets
    ensures l.NoSweets? <==> |sweets| == 0 && searchTerm == ""
    ensures l.NoSweets? ==> l.text == "No sweets available. " + (if isAdmin then "Add one above!" else "")
    ensures l.NoResults? ==> l.text == "No results found for \"" + searchTerm + "\"."
  {
    if |sweets| == 0 && searchTerm == "" then
      NoSweets("No sweets available. " + if isAdmin then "Add one above!" else "")
    else if |sweets| == 0 then NoResults("No results found for \"" + searchTerm + "\".")
    else Items(sweets)
  }

  /** The form area: admins see the edit form while editing, else the add form. */
  datatype Form = NoForm | AddForm | EditForm(sweet: Sweet)

  datatype Screen = Loading | Shown(error: Option<string>, form: Form, listing: Listing)

  class SweetsPage {
    const isAdmin: bool
    var sweets: seq<Sweet>
    var err: string
    var loading: bool
    var editingSweet: Option<Sweet>
    var searchTerm: string
    var restockAmount: map<int, string>
    var calls: seq<ApiCall>

    /** The initial state of the component. */
    constructor (isAdmin: bool)
      ensures this.isAdmin == isAdmin
      ensures sweets == [] && err == "" && loading && editingSweet == None && searchTerm == ""
      ensures restockAmount == map[] && calls == []
    {
      this.isAdmin := isAdmin;
      sweets := [];
      err := "";
      loading := true;
      editingSweet := None;
      searchTerm := "";
      restockAmount := map[];
      calls := [];
    }

    /** What the component renders. */
    function View(): (s: Screen)
      reads this
      ensures s.Loading? <==> loading
      ensures s.Shown? ==> s.error == if err != "" then Some(err) else None
      ensures s.Shown? ==> s.listing == ListingFor(sweets, searchTerm, isAdmin)
      ensures s.Shown? && !isAdmin ==> s.form == NoForm
      ensures s.Shown? && isAdmin ==> (s.form.EditForm? <==> editingSweet.Some?)
      ensures s.Shown? && s.form.EditForm? ==> editingSweet == Some(s.form.sweet)
      ensures s.Shown? && isAdmin && editingSweet.None? ==> s.form == AddForm
    {
      if loading then Loading
      else
        var form := if !isAdmin then NoForm else if editingSweet.Some? then EditForm(editingSweet.value) else AddForm;
        Shown(if err != "" then Some(err) else None, form, ListingFor(sweets, searchTerm, isAdmin))
    }

    /** loadSweets(query): clear the error, show the spinner, call the search
        or list endpoint, keep the answer or its error, hide the spinner. */
    method LoadSweets(query: string, result: Outcome<seq<Sweet>>)
      modifies this
      ensures calls == old(calls) + [LoadCall(query)]
      ensures sweets == if result.Returned? then result.value else old(sweets)
      ensures err == if result.Threw? then result.message else ""
      ensures !loading
      ensures editingSweet == old(editingSweet) && searchTerm == old(searchTerm)
      ensures restockAmount == old(restockAmount)
    {
      err := "";
      loading := true;
      calls := calls + [LoadCall(query)];
      match result {
        case Returned(data) => sweets := data;
        case Threw(message) => err := message;
      }
      loading := false;
    }

    /** The effect run when the component mounts. A change of the isAdmin
        prop is modelled as a new page, which mounts again. */
    method OnMount(reload: Outcome<seq<Sweet>>)
      modifies this
      ensures calls == old(calls) + [LoadCall(old(searchTerm))]
      ensures sweets == if reload.Returned? then reload.value else old(sweets)
      ensures err == if reload.Threw? then reload.message else ""
      ensures !loading
      ensures editingSweet == old(editingSweet) && searchTerm == old(searchTerm)
      ensures restockAmount == old(restockAmount)
    {
      LoadSweets(searchTerm, reload);
    }

    /** handlePurchase, as written: on failure the message is set and then
        immediately cleared by the reload, which starts with setErr(""). */
    method HandlePurchase(id: int, name: string, confirmed: bool, purchase: Outcome<bool>,
                          reload: Outcome<seq<Sweet>>)
      modifies this
      ensures !confirmed ==> calls == old(calls) && err == "" && sweets == old(sweets) && loading == old(loading)
      ensures confirmed ==> calls == old(calls) + [Purchase(id), LoadCall(old(searchTerm))]
      ensures confirmed ==> err == (if reload.Threw? then reload.message else "")
      ensures confirmed ==> sweets == (if reload.Returned? then reload.value else old(sweets)) && !loading
      ensures editingSweet == old(editingSweet) && searchTerm == old(searchTerm)
      ensures restockAmount == old(restockAmount)
    {
      err := "";
      if !confirmed {
        return;
      }
      calls := calls + [Purchase(id)];
      match purchase {
        case Returned(_) =>
          LoadSweets(searchTerm, reload);
        case Threw(message) =>
          err := PurchaseFailedMessage(name, message);
          LoadSweets(searchTerm, reload);
      }
    }

    /** handlePurchase as evidently intended: a failed purchase stays
        reported after the reload. */
    method HandlePurchaseReported(id: int, name: string, confirmed: bool, purchase: Outcome<bool>,
                                  reload: Outcome<seq<Sweet>>)
      modifies this
      ensures !confirmed ==> calls == old(calls) && err == "" && sweets == old(sweets) && loading == old(loading)
      ensures confirmed ==> calls == old(calls) + [Purchase(id), LoadCall(old(searchTerm))]
      ensures confirmed && purchase.Threw? ==> err == PurchaseFailedMessage(name, purchase.message)
      ensures confirmed && purchase.Returned? ==> err == (if reload.Threw? then reload.message else "")
      ensures confirmed ==> sweets == (if reload.Returned? then reload.value else old(sweets)) && !loading
      ensures editingSweet == old(editingSweet) && searchTerm == old(searchTerm)
      ensures restockAmount == old(restockAmount)
    {
      err := "";
      if !confirmed {
        return;
      }
      calls := calls + [Purchase(id)];
      LoadSweets(searchTerm, reload);
      if purchase.Threw? {
        err := PurchaseFailedMessage(name, purchase.message);
      }
    }

    /** The confirmed part of handleRestock: send the amount, empty this
        sweet's box when the server accepted it, and reload the list. */
    method SendRestock(id: int, amount: int, restock: Outcome<bool>, reload: Outcome<seq<Sweet>>)
      modifies this
      ensures calls == old(calls) + [Restock(id, amount), LoadCall(old(searchTerm))]
      ensures err == (if reload.Threw? then reload.message else "")
      ensures sweets == (if reload.Returned? then reload.value else old(sweets)) && !loading
      ensures restockAmount == if restock.Returned? then old(restockAmount)[id := ""] else old(restockAmount)
      ensures editingSweet == old(editingSweet) && searchTerm == old(searchTerm)
    {
      calls := calls + [Restock(id, amount)];
      if restock.Returned? {
        restockAmount := restockAmount[id := ""];
      }
      LoadSweets(searchTerm, reload);
    }

    /** handleRestock, as written: admins only; the amount must parse to a
        positive number; on success only this sweet's input box is emptied;
        a failure message is cleared by the reload, as in handlePurchase. */
    method HandleRestock(id: int, name: string, confirmed: bool, restock: Outcome<bool>,
                         reload: Outcome<seq<Sweet>>)
      modifies this
      ensures var amount := TypedAmount(old(restockAmount), id);
        var proceeds := isAdmin && amount > 0 && confirmed;
        && (!isAdmin ==> err == OnlyAdminsRestock)
        && (isAdmin && amount <= 0 ==> err == RestockNotPositive)
        && (isAdmin && amount > 0 && !confirmed ==> err == "")
        && (!proceeds ==> calls == old(calls) && sweets == old(sweets) && loading == old(loading))
        && (proceeds ==>
              && calls == old(calls) + [Restock(id, amount), LoadCall(old(searchTerm))]
              && err == (if reload.Threw? then reload.message else "")
              && sweets == (if reload.Returned? then reload.value else old(sweets)) && !loading)
        && (restockAmount == if proceeds && restock.Returned? then old(restockAmount)[id := ""] else old(restockAmount))
      ensures editingSweet == old(editingSweet) && searchTerm == old(searchTerm)
    {
      err := "";
      if !isAdmin {
        err := OnlyAdminsRestock;
        return;
      }
      var amount := TypedAmount(restockAmount, id);
      if amount <= 0 {
        err := RestockNotPositive;
        return;
      }
      if !confirmed {
        return;
      }
      if restock.Threw? {
        err := RestockFailedMessage(name, restock.message);
      }
      SendRestock(id, amount, restock, reload);
    }

    /** handleRestock as evidently intended: a failed restock stays reported
        after the reload; every other path is as in HandleRestock. */
    method HandleRestockReported(id: int, name: string, confirmed: bool, restock: Outcome<bool>,
                                 reload: Outcome<seq<Sweet>>)
      modifies this
      ensures var amount := TypedAmount(old(restockAmount), id);
        var proceeds := isAdmin && amount > 0 && confirmed;
        && (!isAdmin ==> err == OnlyAdminsRestock)
        && (isAdmin && amount <= 0 ==> err == RestockNotPositive)
        && (isAdmin && amount > 0 && !confirmed ==> err == "")
        && (!proceeds ==> calls == old(calls) && sweets == old(sweets) && loading == old(loading))
        && (proceeds ==>
              && calls == old(calls) + [Restock(id, amount), LoadCall(old(searchTerm))]
              && err == (if restock.Threw? then RestockFailedMessage(name, restock.message)
                         else if reload.Threw? then reload.message else "")
              && sweets == (if reload.Returned? then reload.value else old(sweets)) && !loading)
        && (restockAmount == if proceeds && restock.Returned? then old(restockAmount)[id := ""] else old(restockAmount))
      ensures editingSweet == old(editingSweet) && searchTerm == old(searchTerm)
    {
      err := "";
      if !isAdmin {
        err := OnlyAdminsRestock;
        return;
      }
      var amount := TypedAmount(restockAmount, id);
      if amount <= 0 {
        err := RestockNotPositive;
        return;
      }
      if !confirmed {
        return;
      }
      SendRestock(id, amount, restock, reload);
      if restock.Threw? {
        err := RestockFailedMessage(name, restock.message);
      }
    }

    /** handleDelete: admins only; after confirmation show the spinner and
        delete; reload on success, report and hide the spinner on failure. */
    method HandleDelete(id: int, name: string, confirmed: bool, deletion: Outcome<Option<bool>>,
                        reload: Outcome<seq<Sweet>>)
      modifies this
      ensures !isAdmin ==> err == OnlyAdminsDelete && calls == old(calls) && sweets == old(sweets)
                           && loading == old(loading)
      ensures isAdmin && !confirmed ==> err == old(err) && calls == old(calls) && sweets == old(sweets)
                                        && loading == old(loading)
      ensures isAdmin && confirmed && deletion.Returned? ==>
        && calls == old(calls) + [Remove(id), LoadCall(old(searchTerm))]
        && err == (if reload.Threw? then reload.message else "")
        && sweets == (if reload.Returned? then reload.value else old(sweets)) && !loading
      ensures isAdmin && confirmed && deletion.Threw? ==>
        && calls == old(calls) + [Remove(id)]
        && err == "Delete failed: " + deletion.message
        && sweets == old(sweets) && !loading
      ensures editingSweet == old(editingSweet) && searchTerm == old(searchTerm)
      ensures restockAmount == old(restockAmount)
    {
      if !isAdmin {
        err := OnlyAdminsDelete;
        return;
      }
      if !confirmed {
        return;
      }
      loading := true;
      calls := calls + [Remove(id)];
      match deletion {
        case Returned(_) =>
          LoadSweets(searchTerm, reload);
        case Threw(message) =>
          err := "Delete failed: " + message;
          loading := false;
      }
    }

    /** handleSearch: remember the query and reload with that same query. */
    method HandleSearch(query: string, reload: Outcome<seq<Sweet>>)
      modifies this
      ensures searchTerm == query
      ensures calls == old(calls) + [LoadCall(query)]
      ensures sweets == if reload.Returned? then reload.value else old(sweets)
      ensures err == if reload.Threw? then reload.message else ""
      ensures !loading
      ensures editingSweet == old(editingSweet) && restockAmount == old(restockAmount)
    {
      searchTerm := query;
      LoadSweets(query, reload);
    }

    /** handleActionComplete: leave edit mode and reload. */
    method HandleActionComplete(reload: Outcome<seq<Sweet>>)
      modifies this
      ensures editingSweet == None
      ensures calls == old(calls) + [LoadCall(old(searchTerm))]
      ensures sweets == if reload.Returned? then reload.value else old(sweets)
      ensures err == if reload.Threw? then reload.message else ""
      ensures !loading
      ensures searchTerm == old(searchTerm) && restockAmount == old(restockAmount)
    {
      editingSweet := None;
      LoadSweets(searchTerm, reload);
    }

    /** handleEdit: admins enter edit mode for the sweet; others get an error. */
    method HandleEdit(sweet: Sweet)
      modifies this
      ensures editingSweet == if isAdmin then Some(sweet) else old(editingSweet)
      ensures err == if isAdmin then old(err) else OnlyAdminsEdit
      ensures sweets == old(sweets) && loading == old(loading) && calls == old(calls)
      ensures searchTerm == old(searchTerm) && restockAmount == old(restockAmount)
    {
      if !isAdmin {
        err := OnlyAdminsEdit;
        return;
      }
      editingSweet := Some(sweet);
    }

    /** The edit form's cancel button. */
    method CancelEdit()
      modifies this
      ensures editingSweet == None
      ensures sweets == old(sweets) && err == old(err) && loading == old(loading) && calls == old(calls)
      ensures searchTerm == old(searchTerm) && restockAmount == old(restockAmount)
    {
      editingSweet := None;
    }

    /** Typing into a sweet's restock box: only that sweet's entry changes. */
    method ChangeRestockInput(id: int, value: string)
      modifies this
      ensures restockAmount == old(restockAmount)[id := value]
      ensures forall other :: other != id ==>
        (other in restockAmount <==> other in old(restockAmount)) &&
        (other in restockAmount ==> restockAmount[other] == old(restockAmount)[other])
      ensures sweets == old(sweets) && err == old(err) && loading == old(loading) && calls == old(calls)
      ensures editingSweet == old(editingSweet) && searchTerm == old(searchTerm)
    {
      restockAmount := restockAmount[id := value];
    }
  }

  /** A failed purchase followed by a successful reload leaves no error on
      screen: the purchase failure message is lost. */
  method PurchaseFailureIsHidden(isAdmin: bool, item: Sweet, message: string) returns (shown: Screen)
    ensures shown == Shown(None, if isAdmin then AddForm else NoForm, ListingFor([item], "", isAdmin))
    ensures shown.Shown? && shown.error != Some(PurchaseFailedMessage(item.name, message))
  {
    var page := new SweetsPage(isAdmin);
    page.HandlePurchase(item.id, item.name, true, Threw(message), Returned([item]));
    shown := page.View();
  }

  /** The corrected handler keeps the purchase failure on screen. */
  method PurchaseFailureIsReported(isAdmin: bool, item: Sweet, message: string) returns (shown: Screen)
    ensures shown.Shown? && shown.error == Some(PurchaseFailedMessage(item.name, message))
  {
    var page := new SweetsPage(isAdmin);
    page.HandlePurchaseReported(item.id, item.name, true, Threw(message), Returned([item]));
    shown := page.View();
  }

  /** A failed restock of a typed amount, followed by a successful reload,
      leaves no error on screen. */
  method RestockFailureIsHidden(item: Sweet, n: nat, message: string) returns (shown: Screen)
    requires n > 0
    ensures shown.Shown? && shown.error == None
    ensures shown.listing == Items([item]) && shown.form == AddForm
  {
    var page := new SweetsPage(true);
    page.ChangeRestockInput(item.id, Decimal(n));
    RestockAmountOfTypedNumber(n, "");
    assert Decimal(n) + "" == Decimal(n);
    page.HandleRestock(item.id, item.name, true, Threw(message), Returned([item]));
    shown := page.View();
  }

  /** The corrected handler keeps the restock failure on screen. */
  method RestockFailureIsReported(item: Sweet, n: nat, message: string) returns (shown: Screen)
    requires n > 0
    ensures shown.Shown? && shown.error == Some(RestockFailedMessage(item.name, message))
  {
    var page := new SweetsPage(true);
    page.ChangeRestockInput(item.id, Decimal(n));
    RestockAmountOfTypedNumber(n, "");
    assert Decimal(n) + "" == Decimal(n);
    page.HandleRestockReported(item.id, item.name, true, Threw(message), Returned([item]));
    shown := page.View();
  }
}
