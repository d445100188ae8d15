/** The applet registry contract (`AppletRegistryState`): a vector of applets
    and a counter that hands out the next id. */
module Registry {
  import opened Base
  import Seqs

  /** One registered applet; `price` is in the chain's smallest unit. */
  datatype Applet = Applet(
    id: u32,
    name: string,
    description: string,
    price: u64,
    owner: string,
    inputSchema: string,
    outputSchema: string,
    isActive: bool)

  /** The owner recorded for every registration: the contract does not read the real caller. */
  const Caller: string := "caller"

  /** Registry invariant: the applet at position i has id i + 1 and the placeholder owner,
      and `next_id` is one past the last id handed out. */
  predicate Numbered(applets: seq<Applet>, nextId: u32)
  {
    && nextId as int == |applets| + 1
    && forall i :: 0 <= i < |applets| ==> applets[i].id as int == i + 1 && applets[i].owner == Caller
  }

  /** The ids of a numbered registry increase strictly along the vector and stay below
      `next_id`, so no two applets share an id. */
  lemma NumberedIdsUnique(applets: seq<Applet>, nextId: u32)
    requires Numbered(applets, nextId)
    ensures forall i, j :: 0 <= i < j < |applets| ==> applets[i].id < applets[j].id
    ensures forall i :: 0 <= i < |applets| ==> 1 <= applets[i].id < nextId
  {
  }

  /** The applet test of `find(|a| a.id == id)`. */
  function HasId(id: u32): Applet -> bool
  {
    (a: Applet) => a.id == id
  }

  /** The applet test of `filter(|a| a.is_active)`. */
  predicate IsActive(a: Applet)
  {
    a.isActive
  }

  /** `get_applets`: the active applets, in registration order. */
  function GetApplets(applets: seq<Applet>): (r: seq<Applet>)
    ensures forall a :: a in r <==> a in applets && a.isActive
  {
    Seqs.FilterMembership(applets, IsActive);
    Seqs.Filter(applets, IsActive)
  }

  /** `get_applets` keeps registration order and every copy of each active applet. */
  lemma {:induction false} GetAppletsOrder(applets: seq<Applet>, a: Applet)
    ensures Seqs.IsSubsequence(GetApplets(applets), applets)
    ensures multiset(GetApplets(applets))[a] == if a.isActive then multiset(applets)[a] else 0
  {
    Seqs.FilterIsSubsequence(applets, IsActive);
    Seqs.FilterMultiset(applets, IsActive, a);
  }

  /** `get_applet_by_id`: the first applet carrying `id`, or `None`. */
  function GetAppletById(applets: seq<Applet>, id: u32): (r: Option<Applet>)
    ensures r.None? <==> forall i :: 0 <= i < |applets| ==> applets[i].id != id
    ensures r.Some? ==> r.value.id == id && r.value in applets
    ensures r.Some? ==>
      (exists i :: 0 <= i < |applets| && applets[i] == r.value && (forall j :: 0 <= j < i ==> applets[j].id != id))
  {
    Seqs.Find(applets, HasId(id))
  }

  /** In a numbered registry the applet with id k sits at position k - 1, and ids outside
      1 .. next_id - 1 are unknown. */
  lemma GetAppletByIdNumbered(applets: seq<Applet>, nextId: u32, id: u32)
    requires Numbered(applets, nextId)
    ensures GetAppletById(applets, id) == if 1 <= id < nextId then Some(applets[id - 1]) else None
  {
    var r := Seqs.FirstIndex(applets, HasId(id));
    if 1 <= id < nextId {
      assert HasId(id)(applets[id - 1]);
      assert r == Some(id as nat - 1);
    }
  }

  /** `get_applet_count`: the vector length, cast with `as u32` (which keeps the low 32 bits). */
  function GetAppletCount(applets: seq<Applet>): (r: u32)
    ensures |applets| <= U32_MAX ==> r as int == |applets|
  {
    (|applets| % (U32_MAX + 1)) as u32
  }

  /** The count covers active and inactive applets alike and equals `next_id - 1`. */
  lemma CountIsNextIdMinusOne(applets: seq<Applet>, nextId: u32)
    requires Numbered(applets, nextId)
    ensures GetAppletCount(applets) as int == |applets| == nextId as int - 1
  {
  }

  /** The new vector after `toggle_applet_status(id)`: the first applet with that id has its
      active flag flipped; nothing else changes. */
  function Toggled(applets: seq<Applet>, id: u32): (r: seq<Applet>)
    ensures |r| == |applets|
    ensures forall i :: 0 <= i < |r| ==> r[i] == applets[i].(isActive := r[i].isActive)
    ensures forall i :: 0 <= i < |r| ==>
      (r[i].isActive != applets[i].isActive <==>
        applets[i].id == id && forall j :: 0 <= j < i ==> applets[j].id != id)
  {
    match Seqs.FirstIndex(applets, HasId(id))
    case None => applets
    case Some(i) => applets[i := applets[i].(isActive := !applets[i].isActive)]
  }

  /** Toggling an id that is not registered changes nothing. */
  lemma ToggleUnknown(applets: seq<Applet>, id: u32)
    requires forall i :: 0 <= i < |applets| ==> applets[i].id != id
    ensures Toggled(applets, id) == applets
  {
  }

  /** Toggling the same id twice restores the original vector. */
  lemma ToggleTwice(applets: seq<Applet>, id: u32)
    ensures Toggled(Toggled(applets, id), id) == applets
  {
    var once := Toggled(applets, id);
    var twice := Toggled(once, id);
    forall i | 0 <= i < |applets|
      ensures twice[i] == applets[i]
    {
      assert forall j :: 0 <= j < |applets| ==> once[j].id == applets[j].id;
    }
  }

  /** Toggling keeps the numbering invariant. */
  lemma ToggledNumbered(applets: seq<Applet>, nextId: u32, id: u32)
    requires Numbered(applets, nextId)
    ensures Numbered(Toggled(applets, id), nextId)
  {
  }

  /** The state of the registry contract. */
  class AppletRegistryState {
    var applets: seq<Applet>
    var nextId: u32

    ghost predicate Valid()
      reads this
    {
      Numbered(applets, nextId)
    }

    /** `new`: an empty registry whose first id will be 1. */
    constructor ()
      ensures Valid()
      ensures applets == [] && nextId == 1
    {
      applets := [];
      nextId := 1;
    }

    /** `register_applet`: appends an active applet carrying the current `next_id`,
        returns that id and advances the counter. Rust's `next_id += 1` must not overflow. */
    method RegisterApplet(name: string, description: string, price: u64, inputSchema: string, outputSchema: string)
      returns (id: u32)
      requires Valid()
      requires nextId as int < U32_MAX
      modifies this
      ensures Valid()
      ensures id == old(nextId)
      ensures nextId as int == old(nextId) as int + 1
      ensures applets == old(applets) + [Applet(id, name, description, price, Caller, inputSchema, outputSchema, true)]
    {
      var applet := Applet(nextId, name, description, price, Caller, inputSchema, outputSchema, true);
      id := nextId;
      applets := applets + [applet];
      nextId := nextId + 1;
    }

    /** `toggle_applet_status`: finds the first applet with `id` and flips its active flag;
        an unknown id leaves the state as it was. */
    method ToggleAppletStatus(id: u32)
      requires Valid()
      modifies this
      ensures Valid()
      ensures applets == Toggled(old(applets), id)
      ensures nextId == old(nextId)
    {
      var i := 0;
      while i < |applets| && applets[i].id != id
        invariant 0 <= i <= |applets|
        invariant forall j :: 0 <= j < i ==> applets[j].id != id
      {
        i := i + 1;
      }
      ToggledNumbered(applets, nextId, id);
      if i < |applets| {
        applets := applets[i := applets[i].(isActive := !applets[i].isActive)];
      }
    }
  }

  /** A registration is visible at once: the new id finds the new applet, and the active
      list grows by exactly that applet at its end. */
  lemma RegisterThenQuery(applets: seq<Applet>, nextId: u32, a: Applet)
    requires Numbered(applets, nextId)
    requires a.id == nextId && a.owner == Caller && a.isActive
    requires nextId as int < U32_MAX
    ensures Numbered(applets + [a], nextId + 1)
    ensures GetAppletById(applets + [a], a.id) == Some(a)
    ensures GetApplets(applets + [a]) == GetApplets(applets) + [a]
  {
    GetAppletByIdNumbered(applets + [a], nextId + 1, a.id);
    Seqs.FilterAppend(applets, [a], IsActive);
  }
}
