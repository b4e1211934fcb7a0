/** The portal's controller: the stored records, which view is showing,
    the record being edited and the current toast, with the handlers that
    the table and the form call. Timestamps are passed in, and the browser's
    confirmation dialog is its answer. */
module Portal {
  import opened Wrappers
  import opened Strings
  import opened Seqs
  import opened Policy

  /** The ids of the records, in order. */
  function Ids(s: seq<PolicyData>): (ids: seq<string>)
    ensures |ids| == |s| && forall i :: 0 <= i < |s| ==> ids[i] == s[i].id
  {
    seq(|s|, i requires 0 <= i < |s| => s[i].id)
  }

  predicate UniqueIds(s: seq<PolicyData>) {
    forall i, j :: 0 <= i < j < |s| ==> s[i].id != s[j].id
  }

  /** Saving an edited record: every record with its id is replaced. */
  function ReplaceById(s: seq<PolicyData>, policy: PolicyData): (r: seq<PolicyData>)
    ensures |r| == |s|
    ensures forall i :: 0 <= i < |s| ==> r[i] == if s[i].id == policy.id then policy else s[i]
  {
    seq(|s|, i requires 0 <= i < |s| => if s[i].id == policy.id then policy else s[i])
  }

  /** Replacing keeps every id where it was, keeps the unique-id invariant,
      puts the record in when its id is stored and changes nothing when it
      is not. */
  lemma ReplaceProperties(s: seq<PolicyData>, policy: PolicyData)
    ensures Ids(ReplaceById(s, policy)) == Ids(s)
    ensures UniqueIds(s) ==> UniqueIds(ReplaceById(s, policy))
    ensures policy.id in Ids(s) ==> policy in ReplaceById(s, policy)
    ensures policy.id !in Ids(s) ==> ReplaceById(s, policy) == s
  {
    var r := ReplaceById(s, policy);
    assert forall i :: 0 <= i < |s| ==> r[i].id == s[i].id;
    if policy.id in Ids(s) {
      var i :| 0 <= i < |s| && Ids(s)[i] == policy.id;
      assert r[i] == policy;
    }
  }

  /** Saving the same record twice is saving it once. */
  lemma ReplaceIdempotent(s: seq<PolicyData>, policy: PolicyData)
    ensures ReplaceById(ReplaceById(s, policy), policy) == ReplaceById(s, policy)
  {
  }

  /** Saving a new record: `{ ...policy, id: Date.now().toString() }` is
      appended. */
  function Appended(s: seq<PolicyData>, policy: PolicyData, now: nat): (r: seq<PolicyData>)
    ensures |r| == |s| + 1 && r[..|s|] == s
    ensures r[|s|].id == NatToString(now)
    ensures forall f :: f != Id ==> Get(r[|s|], f) == Get(policy, f)
  {
    s + [Set(policy, Id, Text(NatToString(now)))]
  }

  /** A fresh timestamp keeps the ids unique. */
  lemma AppendedUnique(s: seq<PolicyData>, policy: PolicyData, now: nat)
    requires UniqueIds(s) && NatToString(now) !in Ids(s)
    ensures UniqueIds(Appended(s, policy, now))
  {
    var r := Appended(s, policy, now);
    forall i, j | 0 <= i < j < |r| ensures r[i].id != r[j].id {
      if j == |s| {
        assert r[i] == s[i];
        assert Ids(s)[i] == s[i].id;
      } else {
        assert r[i] == s[i] && r[j] == s[j];
      }
    }
  }

  function HasOtherId(id: string): PolicyData -> bool {
    (p: PolicyData) => p.id != id
  }

  /** Deleting: `filter(p => p.id !== id)`. */
  function RemoveById(s: seq<PolicyData>, id: string): (r: seq<PolicyData>)
    ensures |r| <= |s|
    ensures forall i :: 0 <= i < |r| ==> r[i].id != id
  {
    Filter(s, HasOtherId(id))
  }

  /** Deleting keeps the other records in order and as often as they
      occurred, and changes nothing when no record has the id. */
  lemma RemoveProperties(s: seq<PolicyData>, id: string)
    ensures IsSubsequence(RemoveById(s, id), s)
    ensures forall p: PolicyData :: p.id != id ==> multiset(RemoveById(s, id))[p] == multiset(s)[p]
    ensures forall p: PolicyData :: p.id == id ==> p !in RemoveById(s, id)
    ensures id !in Ids(s) ==> RemoveById(s, id) == s
  {
    FilterIsSubsequence(s, HasOtherId(id));
    forall p: PolicyData | p.id != id ensures multiset(RemoveById(s, id))[p] == multiset(s)[p] {
      FilterCount(s, HasOtherId(id), p);
    }
    if id !in Ids(s) {
      assert forall i :: 0 <= i < |s| ==> Ids(s)[i] == s[i].id;
      FilterKeepsAll(s, HasOtherId(id));
    }
  }

  /** Deleting the record just added gives the list from before. */
  lemma RemoveUndoesAppend(s: seq<PolicyData>, policy: PolicyData, now: nat)
    requires NatToString(now) !in Ids(s)
    ensures RemoveById(Appended(s, policy, now), NatToString(now)) == s
  {
    var id := NatToString(now);
    var r := Appended(s, policy, now);
    assert r == s + [r[|s|]];
    FilterAppend(s, [r[|s|]], HasOtherId(id));
    assert Filter([r[|s|]], HasOtherId(id)) == [];
    RemoveProperties(s, id);
  }

  /** The current toast once the timer of toast `id` fires: cleared only if
      it is still that toast. */
  function Expired(current: Option<ToastMessage>, id: int): (r: Option<ToastMessage>)
    ensures r.None? <==> current.None? || current.value.id == id
    ensures r.Some? ==> r == current
  {
    if current.Some? && current.value.id == id then None else current
  }

  /** A newer toast outlives the older toast's timer; its own timer clears
      it. */
  lemma NewerToastSurvives(older: int, newer: ToastMessage)
    requires newer.id != older
    ensures Expired(Some(newer), older) == Some(newer)
    ensures Expired(Expired(Some(newer), older), newer.id) == None
  {
  }

  datatype View = TableView | FormView

  class App {
    var policies: seq<PolicyData>
    var view: View
    var editingPolicy: Option<PolicyData>
    var toast: Option<ToastMessage>

    /** Starts on the table with the stored records. */
    constructor (stored: seq<PolicyData>)
      ensures policies == stored && view == TableView && editingPolicy == None && toast == None
    {
      policies := stored;
      view := TableView;
      editingPolicy := None;
      toast := None;
    }

    /** `showToast`: the new toast replaces the current one. */
    method ShowToast(message: string, kind: ToastKind, now: int)
      modifies this
      ensures toast == Some(ToastMessage(now, message, kind))
      ensures policies == old(policies) && view == old(view) && editingPolicy == old(editingPolicy)
    {
      toast := Some(ToastMessage(now, message, kind));
    }

    /** The four-second timer of toast `id`. */
    method ExpireToast(id: int)
      modifies this
      ensures toast == Expired(old(toast), id)
      ensures policies == old(policies) && view == old(view) && editingPolicy == old(editingPolicy)
    {
      toast := Expired(toast, id);
    }

    /** The toast's close button. */
    method CloseToast()
      modifies this
      ensures toast == None
      ensures policies == old(policies) && view == old(view) && editingPolicy == old(editingPolicy)
    {
      toast := None;
    }

    /** `handleSavePolicy`; `idStamp` and `toastStamp` are the two readings
        of the clock. */
    method SavePolicy(policy: PolicyData, idStamp: nat, toastStamp: int)
      modifies this
      ensures old(editingPolicy).Some? ==>
        policies == ReplaceById(old(policies), policy) &&
        toast == Some(ToastMessage(toastStamp, "Policy updated successfully!", Success))
      ensures old(editingPolicy).None? ==>
        policies == Appended(old(policies), policy, idStamp) &&
        toast == Some(ToastMessage(toastStamp, "New policy added successfully!", Success))
      ensures view == TableView && editingPolicy == None
    {
      if editingPolicy.Some? {
        policies := ReplaceById(policies, policy);
        ShowToast("Policy updated successfully!", Success, toastStamp);
      } else {
        policies := Appended(policies, policy, idStamp);
        ShowToast("New policy added successfully!", Success, toastStamp);
      }
      view := TableView;
      editingPolicy := None;
    }

    /** `handleAddNew`. */
    method AddNew()
      modifies this
      ensures editingPolicy == None && view == FormView
      ensures policies == old(policies) && toast == old(toast)
    {
      editingPolicy := None;
      view := FormView;
    }

    /** `handleEdit`. */
    method Edit(policy: PolicyData)
      modifies this
      ensures editingPolicy == Some(policy) && view == FormView
      ensures policies == old(policies) && toast == old(toast)
    {
      editingPolicy := Some(policy);
      view := FormView;
    }

    /** The form's Cancel button: back to the table, the record being
        edited is kept. */
    method CloseForm()
      modifies this
      ensures view == TableView
      ensures policies == old(policies) && editingPolicy == old(editingPolicy) && toast == old(toast)
    {
      view := TableView;
    }

    /** `handleDelete`; `confirmed` is the answer to the confirmation. */
    method Delete(id: string, confirmed: bool, now: int)
      modifies this
      ensures confirmed ==>
        policies == RemoveById(old(policies), id) && toast == Some(ToastMessage(now, "Policy deleted.", Success))
      ensures !confirmed ==> policies == old(policies) && toast == old(toast)
      ensures view == old(view) && editingPolicy == old(editingPolicy)
    {
      if confirmed {
        policies := RemoveById(policies, id);
        ShowToast("Policy deleted.", Success, now);
      }
    }

    /** `handleDeleteAll`. */
    method DeleteAll(confirmed: bool, now: int)
      modifies this
      ensures confirmed ==> policies == [] && toast == Some(ToastMessage(now, "All policies deleted.", Success))
      ensures !confirmed ==> policies == old(policies) && toast == old(toast)
      ensures view == old(view) && editingPolicy == old(editingPolicy)
    {
      if confirmed {
        policies := [];
        ShowToast("All policies deleted.", Success, now);
      }
    }
  }
}
