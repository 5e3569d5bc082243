/** The collaborator list (pages/app/equipe.tsx): it keeps the collaborators
    sorted by name under the locale's collation, drops the selected one on
    removal, and merges what the dialog saves back into the list. The
    collation is a total preorder on names, `collate(a, b)` meaning
    `a.localeCompare(b, 'pt-BR') <= 0`. */
module TeamPage {
  import opened Common
  import opened Records
  import opened Lists
  import UserForm

  /** The list before `onSave` sorts it: the saved collaborator appended
      when nothing was selected, otherwise laid over the entries with its id. */
  function Upserted(us: seq<User>, saved: User, selected: bool): (r: seq<User>)
    ensures !selected ==> |r| == |us| + 1 && multiset(r) == multiset(us) + multiset{saved}
    ensures selected ==> |r| == |us|
    ensures selected ==> forall i :: 0 <= i < |us| ==>
      r[i] == (if us[i].id == saved.id then saved else us[i])
  {
    if selected then ReplaceMatching(us, UserId, saved) else us + [saved]
  }

  /** As written: after the dialog was closed and reopened on the same
      listed collaborator, saving an edit updates the store but leaves the
      list before sorting exactly as it was, since the collaborator handed
      back has an empty id and the store never issues one. */
  lemma StaleEditLeavesListAsWritten(us: seq<User>, x: User, d: UserForm.FormData, postedId: Id)
    requires x in us && x.id != "" && UserForm.Complete(d)
    requires forall u :: u in us ==> u.id != ""
    ensures var s := UserForm.SubmitOutcomeAsWritten(x, UserForm.Blank().id, d, postedId);
      && s.Submitted? && s.request == Put(Users, x.id, UserForm.Body(d))
      && Upserted(us, s.saved, true) == us
  {
  }

  /** As intended: with unique ids, saving an edit of a listed collaborator
      puts the saved collaborator in the list, with the id the update went
      to, and drops the old one when anything changed; the other entries stay. */
  lemma EditReplacesListedEntry(us: seq<User>, x: User, d: UserForm.FormData, postedId: Id)
    requires UniqueKeys(us, UserId) && x in us && x.id != "" && UserForm.Complete(d)
    ensures var s := UserForm.SubmitOutcome(x, d, postedId);
      && s.Submitted? && s.request == Put(Users, x.id, UserForm.Body(d))
      && s.saved in Upserted(us, s.saved, true)
      && (s.saved != x ==> x !in Upserted(us, s.saved, true))
      && (forall u :: u in us && u.id != x.id ==> u in Upserted(us, s.saved, true))
  {
    var s := UserForm.SubmitOutcome(x, d, postedId);
    var r := Upserted(us, s.saved, true);
    var i :| 0 <= i < |us| && us[i] == x;
    assert r[i] == s.saved;
    forall u | u in us && u.id != x.id
      ensures u in r
    {
      var k :| 0 <= k < |us| && us[k] == u;
      assert r[k] == u;
    }
    if s.saved != x {
      forall k | 0 <= k < |r|
        ensures r[k] != x
      {
        if us[k].id != x.id {
          assert r[k] == us[k];
        }
      }
    }
  }

  /** Removal keeps the list sorted and keeps the kept collaborators in the
      order they had, whatever way the list is split. */
  lemma RemovalKeepsOrder(collate: (string, string) -> bool, a: seq<User>, b: seq<User>, id: Id)
    requires SortedBy(a + b, UserName, collate)
    ensures SortedBy(RemoveMatching(a + b, UserId, id), UserName, collate)
    ensures RemoveMatching(a + b, UserId, id) == RemoveMatching(a, UserId, id) + RemoveMatching(b, UserId, id)
  {
    RemoveMatchingSorted(a + b, UserName, collate, UserId, id);
    RemoveMatchingAppend(a, b, UserId, id);
  }

  class Page {
    const collate: (string, string) -> bool
    var users: seq<User>
    var selected: Option<User>

    /** The collation is a total preorder and the list is sorted by it. */
    ghost predicate Valid()
      reads this
    {
      TotalPreorder(collate) && SortedBy(users, UserName, collate)
    }

    constructor(collate: (string, string) -> bool)
      requires TotalPreorder(collate)
      ensures Valid() && this.collate == collate
      ensures users == [] && selected == None
    {
      this.collate := collate;
      users, selected := [], None;
    }

    /** Sorts `us` by name into the list and proves what the sort promises. */
    method SetSorted(us: seq<User>)
      requires TotalPreorder(collate)
      modifies this`users
      ensures Valid()
      ensures users == StableSort(us, UserName, collate)
      ensures multiset(users) == multiset(us)
      ensures forall n :: SameKey(users, UserName, collate, n) == SameKey(us, UserName, collate, n)
    {
      users := StableSort(us, UserName, collate);
      SortSorted(us, UserName, collate);
      forall n ensures SameKey(users, UserName, collate, n) == SameKey(us, UserName, collate, n) {
        SortStable(us, UserName, collate, n);
      }
    }

    /** `load`: the fetched collaborators sorted by name. */
    method Load(fetched: seq<User>)
      requires TotalPreorder(collate)
      modifies this
      ensures Valid() && selected == old(selected)
      ensures users == StableSort(fetched, UserName, collate)
      ensures multiset(users) == multiset(fetched)
      ensures forall n :: SameKey(users, UserName, collate, n) == SameKey(fetched, UserName, collate, n)
    {
      SetSorted(fetched);
    }

    /** `openForm` and `openDeleteConfirmation`: select a collaborator, or
        nothing for a new one. */
    method Select(u: Option<User>)
      modifies this`selected
      ensures selected == u
    {
      selected := u;
    }

    /** `remove`: with a selection, asks the store to delete it and drops
        every entry with its id, keeping the others in order; without one,
        does nothing. */
    method Remove() returns (request: Option<StoreRequest>)
      requires Valid()
      modifies this`users
      ensures Valid()
      ensures selected.None? ==> request == None && users == old(users)
      ensures selected.Some? ==> request == Some(Delete(Users, selected.value.id))
      ensures selected.Some? ==> users == RemoveMatching(old(users), UserId, selected.value.id)
      ensures selected.Some? ==> forall u :: u in users <==> u in old(users) && u.id != selected.value.id
    {
      request := None;
      if selected.Some? {
        var id := selected.value.id;
        request := Some(Delete(Users, id));
        RemoveMatchingSorted(users, UserName, collate, UserId, id);
        users := RemoveMatching(users, UserId, id);
      }
    }

    /** `onSave`: with nothing selected the saved collaborator joins the
        list, otherwise it replaces the entries with its id; then the list
        is sorted by name again. */
    method OnSave(saved: User)
      requires Valid()
      modifies this`users
      ensures Valid()
      ensures users == StableSort(Upserted(old(users), saved, selected.Some?), UserName, collate)
      ensures selected.None? ==> |users| == |old(users)| + 1
      ensures selected.None? ==> multiset(users) == multiset(old(users)) + multiset{saved}
      ensures selected.Some? ==> |users| == |old(users)|
      ensures forall n :: SameKey(users, UserName, collate, n)
                       == SameKey(Upserted(old(users), saved, selected.Some?), UserName, collate, n)
    {
      SetSorted(Upserted(users, saved, selected.Some?));
    }
  }
}
