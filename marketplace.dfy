/** The marketplace page (`Marketplace`): choice of data source, the listed applets,
    the search filter, the details lookup, the card ids and the registration form. */
module Marketplace {
  import opened Base
  import Seqs
  import Strings
  import MockData

  /** The all-zero address that marks "no registry deployed". */
  const ZeroAddress: string := "0x0000000000000000000000000000000000000000"

  /** `REGISTRY_ADDRESS`: the configured address, or "" when the variable is unset. */
  function RegistryAddress(env: Option<string>): string
  {
    if env.Some? then env.value else ""
  }

  /** `USE_REAL_CONTRACTS`: the contract is used only when an address other than the
      zero address is configured. */
  function UseRealContracts(env: Option<string>): (r: bool)
    ensures r <==> env.Some? && env.value != "" && env.value != ZeroAddress
    ensures env.None? ==> !r
  {
    var address := RegistryAddress(env);
    address != "" && address != ZeroAddress
  }

  /** An applet as the registry contract returns it; `id` and `price` are big integers. */
  datatype ContractApplet = ContractApplet(
    id: int,
    name: string,
    description: string,
    price: int,
    owner: string,
    inputSchemaHash: string,
    outputSchemaHash: string,
    isActive: bool)

  /** An applet as the page lists it; `price` is in wei. */
  datatype ListedApplet = ListedApplet(
    id: int,
    name: string,
    description: string,
    price: int,
    owner: string,
    inputSchema: string,
    outputSchema: string,
    isActive: bool)

  /** The contract branch of the `applets` mapping: schemas are shown as "JSON" because
      the contract only stores their hashes. */
  function FromContract(applets: seq<ContractApplet>): (r: seq<ListedApplet>)
    ensures |r| == |applets|
    ensures forall i :: 0 <= i < |r| ==>
      && r[i].id == applets[i].id && r[i].name == applets[i].name
      && r[i].description == applets[i].description && r[i].price == applets[i].price
      && r[i].owner == applets[i].owner && r[i].isActive == applets[i].isActive
      && r[i].inputSchema == "JSON" && r[i].outputSchema == "JSON"
  {
    seq(|applets|, i requires 0 <= i < |applets| =>
      var a := applets[i];
      ListedApplet(a.id, a.name, a.description, a.price, a.owner, "JSON", "JSON", a.isActive))
  }

  /** The mock branch of the `applets` mapping: the price string is converted to wei by
      `parseEther` and every applet is shown as active. */
  function FromMock(applets: seq<MockData.Applet>, parseEther: string -> int): (r: seq<ListedApplet>)
    ensures |r| == |applets|
    ensures forall i :: 0 <= i < |r| ==>
      && r[i].id == applets[i].id && r[i].name == applets[i].name
      && r[i].description == applets[i].description && r[i].price == parseEther(applets[i].price)
      && r[i].owner == applets[i].owner && r[i].isActive
      && r[i].inputSchema == applets[i].inputSchema && r[i].outputSchema == applets[i].outputSchema
  {
    seq(|applets|, i requires 0 <= i < |applets| =>
      var a := applets[i];
      ListedApplet(a.id, a.name, a.description, parseEther(a.price), a.owner, a.inputSchema, a.outputSchema, true))
  }

  /** The search test: the lowercased name or description contains the lowercased query. */
  predicate MatchesQuery(a: ListedApplet, query: string)
  {
    || Strings.Contains(Strings.Lower(a.name), Strings.Lower(query))
    || Strings.Contains(Strings.Lower(a.description), Strings.Lower(query))
  }

  function Matching(query: string): ListedApplet -> bool
  {
    (a: ListedApplet) => MatchesQuery(a, query)
  }

  /** `filteredApplets`: the listed applets that match the search query. */
  function FilteredApplets(applets: seq<ListedApplet>, query: string): (r: seq<ListedApplet>)
    ensures forall a :: a in r <==> a in applets && MatchesQuery(a, query)
  {
    Seqs.FilterMembership(applets, Matching(query));
    Seqs.Filter(applets, Matching(query))
  }

  /** The filter keeps the listing's order and every copy of each matching applet. */
  lemma {:induction false} FilteredOrder(applets: seq<ListedApplet>, query: string, a: ListedApplet)
    ensures Seqs.IsSubsequence(FilteredApplets(applets, query), applets)
    ensures multiset(FilteredApplets(applets, query))[a] == if MatchesQuery(a, query) then multiset(applets)[a] else 0
  {
    Seqs.FilterIsSubsequence(applets, Matching(query));
    Seqs.FilterMultiset(applets, Matching(query), a);
  }

  /** An empty search box shows every applet. */
  lemma EmptyQueryKeepsAll(applets: seq<ListedApplet>)
    ensures FilteredApplets(applets, "") == applets
  {
    forall i | 0 <= i < |applets|
      ensures Matching("")(applets[i])
    {
      assert Strings.OccursAt(Strings.Lower(applets[i].name), "", 0);
    }
    Seqs.FilterAll(applets, Matching(""));
  }

  /** The search ignores the case of the query: a lowercased query shows the same applets. */
  lemma QueryCaseIgnored(applets: seq<ListedApplet>, query: string)
    ensures FilteredApplets(applets, Strings.Lower(query)) == FilteredApplets(applets, query)
  {
    Strings.LowerIdempotent(query);
    Seqs.FilterSameTest(applets, Matching(Strings.Lower(query)), Matching(query));
  }

  /** `selectedApplet`: the first listed applet whose id equals the selected id, or
      `undefined` when nothing is selected or no applet has that id. */
  function SelectedApplet(applets: seq<ListedApplet>, selectedId: Option<int>): (r: Option<ListedApplet>)
    ensures r.None? <==> selectedId.None? || forall i :: 0 <= i < |applets| ==> applets[i].id != selectedId.value
    ensures r.Some? ==> r.value.id == selectedId.value && r.value in applets
    ensures r.Some? ==>
      (exists i :: 0 <= i < |applets| && applets[i] == r.value && (forall j :: 0 <= j < i ==> applets[j].id != selectedId.value))
  {
    match selectedId
    case None => None
    case Some(id) => Seqs.Find(applets, (a: ListedApplet) => a.id == id)
  }

  /** The id a card shows: `Number(applet.id) || idx + 1`. Ids are integers here, so the
      fallback applies exactly to id 0; the shown id is never 0. */
  function CardId(id: int, idx: nat): (r: int)
    ensures r != 0
    ensures id != 0 ==> r == id
    ensures id == 0 ==> r == idx + 1
  {
    if id == 0 then idx + 1 else id
  }

  /** With the mock store numbered by position, every card shows its applet's own id,
      whatever the search query. */
  lemma MockCardsShowOwnIds(mock: seq<MockData.Applet>, parseEther: string -> int, query: string)
    requires MockData.IdsArePositions(mock)
    ensures var shown := FilteredApplets(FromMock(mock, parseEther), query);
      forall idx :: 0 <= idx < |shown| ==> CardId(shown[idx].id, idx) == shown[idx].id
  {
    var listed := FromMock(mock, parseEther);
    var shown := FilteredApplets(listed, query);
    forall idx | 0 <= idx < |shown|
      ensures shown[idx].id >= 1
    {
      assert shown[idx] in listed;
      var k :| 0 <= k < |listed| && listed[k] == shown[idx];
      assert listed[k].id == mock[k].id == k + 1;
    }
  }

  /** What `contractRegister` is called with. */
  datatype RegisterRequest = RegisterRequest(
    name: string, description: string, price: string, inputSchema: string, outputSchema: string)

  /** The registration form's state. */
  class RegisterForm {
    var isRegisterOpen: bool
    var name: string
    var price: string
    var description: string
    var inputSchema: string
    var outputSchema: string

    /** The form as the page first renders it: closed, empty, "Text" in and "JSON" out. */
    constructor ()
      ensures !isRegisterOpen
      ensures name == "" && price == "" && description == ""
      ensures inputSchema == "Text" && outputSchema == "JSON"
    {
      isRegisterOpen := false;
      name, price, description := "", "", "";
      inputSchema, outputSchema := "Text", "JSON";
    }

    /** `resetForm`: clears the fields back to their first-render values. */
    method ResetForm()
      modifies this
      ensures name == "" && price == "" && description == ""
      ensures inputSchema == "Text" && outputSchema == "JSON"
      ensures isRegisterOpen == old(isRegisterOpen)
    {
      name, price, description := "", "", "";
      inputSchema, outputSchema := "Text", "JSON";
    }

    /** `handleRegister` with the data source chosen by `useRealContracts`. An empty name
        or price does nothing. In contract mode the form asks the contract to register
        (returned as `request`) and otherwise stays as it is. In mock mode the store
        registers the applet once (its schema arguments are dropped by the store), then
        the form closes and resets. */
    method HandleRegister(useRealContracts: bool, store: MockData.Store) returns (request: Option<RegisterRequest>)
      modifies this, store
      ensures old(name) == "" || old(price) == "" ==>
        request.None? && unchanged(this) && unchanged(store)
      ensures old(name) != "" && old(price) != "" && useRealContracts ==>
        && request == Some(RegisterRequest(old(name), old(description), old(price), old(inputSchema), old(outputSchema)))
        && unchanged(this) && unchanged(store)
      ensures old(name) != "" && old(price) != "" && !useRealContracts ==>
        && request.None?
        && store.applets == old(store.applets) + [MockData.NewApplet(old(store.applets), old(name), old(description), old(price))]
        && store.executions == old(store.executions)
        && !isRegisterOpen
        && name == "" && price == "" && description == ""
        && inputSchema == "Text" && outputSchema == "JSON"
      ensures old(store.Valid()) ==> store.Valid()
    {
      request := None;
      if name == "" || price == "" {
        return;
      }
      if useRealContracts {
        request := Some(RegisterRequest(name, description, price, inputSchema, outputSchema));
      } else {
        store.RegisterApplet(name, description, price);
        isRegisterOpen := false;
        ResetForm();
      }
    }

    /** The effect that runs once the contract confirms a registration: the form closes
        and resets (the listing is re-fetched from the contract). */
    method OnRegisterConfirmed()
      modifies this
      ensures !isRegisterOpen
      ensures name == "" && price == "" && description == ""
      ensures inputSchema == "Text" && outputSchema == "JSON"
    {
      isRegisterOpen := false;
      ResetForm();
    }
  }
}
