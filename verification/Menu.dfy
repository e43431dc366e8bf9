/**
 The tray's index of visible menu items (systray/systray_windows.go), which has to agree
 with the native menus. The operating system is the map `native` from menu handles to
 item ids; every native call may fail, as the `Faults` of an operation say. Operations
 come one after the other, and no item is hidden that has a submenu.
 */
module Menu {
  type Id = x: int | 0 <= x < 0x1_0000_0000

  type Handle = nat

  /** What DeleteMenu does with an item that is there. A call that returns 0 and leaves
      ERROR_SUCCESS behind has deleted nothing and counts as done. */
  datatype Deletion = Deletes | Refuses | RefusesQuietly

  /** Which native calls succeed during one operation. */
  datatype Faults = Faults(titleOk: bool, createOk: bool, linkOk: bool, setOk: bool, insertOk: bool, deletion: Deletion)

  const NO_FAULTS := Faults(true, true, true, true, true, Deletes)

  datatype State = State(
    visible: map<Id, seq<Id>>, menus: map<Id, Handle>, menuOf: map<Id, Handle>,
    native: map<Handle, seq<Id>>, next: Handle)

  // ---- sorted lists ----

  ghost predicate IsSorted(s: seq<Id>) {
    forall i, j :: 0 <= i < j < |s| ==> s[i] <= s[j]
  }

  /** Index of the first occurrence, or the length if there is none. */
  function IndexOf(s: seq<Id>, id: Id): (n: nat)
    ensures n <= |s| && id !in s[..n]
    ensures n < |s| ==> s[n] == id
    ensures n == |s| <==> id !in s
  {
    if s == [] then 0
    else if s[0] == id then 0
    else
      assert s == [s[0]] + s[1..];
      var n := 1 + IndexOf(s[1..], id);
      assert s[..n] == [s[0]] + s[1..][..n - 1];
      n
  }

  function InsertAt(s: seq<Id>, p: nat, id: Id): seq<Id> {
    if p <= |s| then s[..p] + [id] + s[p..] else s + [id]
  }

  function RemoveFirst(s: seq<Id>, id: Id): seq<Id> {
    var n := IndexOf(s, id);
    if n < |s| then s[..n] + s[n + 1..] else s
  }

  /** The sorted arrangement: insertion into the sorted rest. */
  function Sort(s: seq<Id>): (t: seq<Id>)
    ensures multiset(t) == multiset(s)
  {
    if s == [] then []
    else
      var rest, last := Sort(s[..|s| - 1]), s[|s| - 1];
      WithoutLast(s);
      InsertedAt(rest, Position(rest, last), last);
      InsertAt(rest, Position(rest, last), last)
  }

  lemma InsertedAt(s: seq<Id>, p: nat, id: Id)
    ensures multiset(InsertAt(s, p, id)) == multiset(s) + multiset{id}
  {
    if p <= |s| { assert s == s[..p] + s[p..]; }
  }

  /** The first place at which no smaller element follows. */
  function Position(s: seq<Id>, id: Id): (p: nat)
    ensures p <= |s|
    ensures forall i :: 0 <= i < p ==> s[i] < id
    ensures p < |s| ==> s[p] >= id
  {
    if s == [] || s[0] >= id then 0 else 1 + Position(s[1..], id)
  }

  lemma InsertSorted(s: seq<Id>, id: Id)
    requires IsSorted(s)
    ensures IsSorted(InsertAt(s, Position(s, id), id))
  {
  }

  lemma {:induction false} SortIsSorted(s: seq<Id>)
    ensures IsSorted(Sort(s))
    decreases |s|
  {
    if s == [] {
    } else {
      SortIsSorted(s[..|s| - 1]);
      InsertSorted(Sort(s[..|s| - 1]), s[|s| - 1]);
    }
  }

  lemma LastIsLargest(s: seq<Id>, x: Id)
    requires IsSorted(s) && x in multiset(s)
    ensures s != [] && x <= s[|s| - 1]
  {
    assert x in s;
    var i :| 0 <= i < |s| && s[i] == x;
  }

  lemma WithoutLast(s: seq<Id>)
    requires s != []
    ensures multiset(s[..|s| - 1]) == multiset(s) - multiset{s[|s| - 1]}
    ensures s[|s| - 1] in multiset(s)
  {
    assert s == s[..|s| - 1] + [s[|s| - 1]];
  }

  lemma NothingIn(s: seq<Id>)
    requires multiset(s) == multiset{}
    ensures s == []
  {
    assert |multiset(s)| == |s|;
  }

  lemma SortedPrefix(s: seq<Id>)
    requires s != [] && IsSorted(s)
    ensures IsSorted(s[..|s| - 1])
  {
  }

  lemma SameLast(a: seq<Id>, b: seq<Id>)
    requires IsSorted(a) && IsSorted(b) && multiset(a) == multiset(b) && a != []
    ensures b != [] && a[|a| - 1] == b[|b| - 1]
    ensures multiset(a[..|a| - 1]) == multiset(b[..|b| - 1])
  {
    WithoutLast(a);
    LastIsLargest(b, a[|a| - 1]);
    WithoutLast(b);
    LastIsLargest(a, b[|b| - 1]);
  }

  /** Two sorted arrangements of the same elements are the same, whatever sorted them. */
  lemma {:induction false} SortedIsUnique(a: seq<Id>, b: seq<Id>)
    requires IsSorted(a) && IsSorted(b) && multiset(a) == multiset(b)
    ensures a == b
    decreases |a|
  {
    if a == [] {
      NothingIn(b);
    } else {
      SameLast(a, b);
      SortedPrefix(a);
      SortedPrefix(b);
      SortedIsUnique(a[..|a| - 1], b[..|b| - 1]);
      assert a == a[..|a| - 1] + [a[|a| - 1]];
      assert b == b[..|b| - 1] + [b[|b| - 1]];
    }
  }

  lemma CutOut(s: seq<Id>, p: nat)
    requires p < |s|
    ensures multiset(s[..p] + s[p + 1..]) == multiset(s) - multiset{s[p]}
    ensures s == s[..p] + [s[p]] + s[p + 1..]
  {
    assert s == s[..p] + [s[p]] + s[p + 1..];
  }

  lemma CutSorted(s: seq<Id>, p: nat)
    requires IsSorted(s) && p < |s|
    ensures IsSorted(s[..p] + s[p + 1..])
  {
  }

  /** Key lemma: inserting at the first index of the id in the sorted arrangement of the
      old list and the id gives that arrangement. */
  lemma InsertAtFirstIndex(before: seq<Id>, after: seq<Id>, id: Id)
    requires IsSorted(before) && IsSorted(after) && multiset(after) == multiset(before) + multiset{id}
    ensures InsertAt(before, IndexOf(after, id), id) == after
    ensures RemoveFirst(after, id) == before
  {
    assert id in multiset(after) && id in after;
    var p := IndexOf(after, id);
    var rest := after[..p] + after[p + 1..];
    assert multiset(rest) == multiset(before) && IsSorted(rest) by {
      CutOut(after, p);
      CutSorted(after, p);
    }
    SortedIsUnique(rest, before);
    PutBack(before, after, p);
  }

  lemma PutBack(before: seq<Id>, after: seq<Id>, p: nat)
    requires p < |after| && before == after[..p] + after[p + 1..]
    ensures InsertAt(before, p, after[p]) == after
  {
    assert before[..p] == after[..p] && before[p..] == after[p + 1..];
  }

  // ---- the index ----

  function Items(s: State, parent: Id): seq<Id> {
    if parent in s.visible then s.visible[parent] else []
  }

  function AddToVisible(s: State, parent: Id, id: Id): State {
    s.(visible := s.visible[parent := Sort(Items(s, parent) + [id])])
  }

  function DelFromVisible(s: State, parent: Id, id: Id): State {
    s.(visible := s.visible[parent := RemoveFirst(Items(s, parent), id)])
  }

  // ---- native calls ----

  function NativeItems(s: State, menu: Handle): seq<Id> {
    if menu in s.native then s.native[menu] else []
  }

  /** InsertMenuItem by position. */
  function NativeInsert(s: State, menu: Handle, position: nat, id: Id): State {
    s.(native := s.native[menu := InsertAt(NativeItems(s, menu), position, id)])
  }

  /** DeleteMenu by command: the first item with the id. */
  function NativeDelete(s: State, menu: Handle, id: Id): State {
    s.(native := s.native[menu := RemoveFirst(NativeItems(s, menu), id)])
  }

  // ---- operations ----

  /** convertToSubMenu: a new native menu, linked to the parent's item. */
  function Convert(s: State, parent: Id, f: Faults): (State, bool) {
    if !f.createOk then (s, false)
    else
      var created := s.(native := s.native[s.next := []], next := s.next + 1);
      if !f.linkOk then (created, false) else (created.(menus := created.menus[parent := s.next]), true)
  }

  /** The insertion of addOrUpdateMenuItem: index first, taken back if the native call fails. */
  function Insert(s: State, id: Id, parent: Id, menu: Handle, f: Faults): State {
    var added := AddToVisible(s, parent, id);
    var position := IndexOf(Items(added, parent), id);
    if f.insertOk then
      var t := NativeInsert(added, menu, position, id);
      t.(menuOf := t.menuOf[id := menu])
    else DelFromVisible(added, parent, id)
  }

  function AddOrUpdate(s: State, id: Id, parent: Id, f: Faults): State {
    if !f.titleOk then s
    else if parent !in s.menus then
      var (t, ok) := Convert(s, parent, f);
      if ok then Insert(t, id, parent, t.menus[parent], f) else t
    else if id in Items(s, parent) && f.setOk then s
    else Insert(s, id, parent, s.menus[parent], f)
  }

  /** addSeparatorMenuItem. The index entry stays when the native call fails, as it does
      for a parent without a menu. */
  function Separator(s: State, id: Id, parent: Id, f: Faults): State {
    var added := AddToVisible(s, parent, id);
    if parent in s.menus && f.insertOk then
      NativeInsert(added, s.menus[parent], IndexOf(Items(added, parent), id), id)
    else added
  }

  /** hideMenuItem. DeleteMenu fails where the item, or the menu, is not there. */
  function Hide(s: State, id: Id, parent: Id, f: Faults): State {
    if f.deletion.Deletes? && parent in s.menus && id in NativeItems(s, s.menus[parent]) then
      DelFromVisible(NativeDelete(s, s.menus[parent], id), parent, id)
    else if f.deletion.RefusesQuietly? then DelFromVisible(s, parent, id)
    else s
  }

  // ---- agreement ----

  /** A parent's list is sorted and is its native menu, empty if it has none. */
  ghost predicate AgreesAt(s: State, p: Id) {
    && IsSorted(Items(s, p))
    && Items(s, p) == if p in s.menus then NativeItems(s, s.menus[p]) else []
  }

  /** Different parents have different menus, and new handles are new. */
  ghost predicate Handles(s: State) {
    && (forall p, q :: p in s.menus && q in s.menus && s.menus[p] == s.menus[q] ==> p == q)
    && (forall p :: p in s.menus ==> s.menus[p] in s.native)
    && (forall h :: h in s.native ==> h < s.next)
  }

  ghost predicate Agrees(s: State) {
    Handles(s) && forall p :: AgreesAt(s, p)
  }

  /** `t` has new items for one parent, in the index and in its native menu alike. */
  lemma BothChanged(s: State, t: State, parent: Id, items: seq<Id>)
    requires Agrees(s) && parent in s.menus && IsSorted(items)
    requires t.menus == s.menus && t.next == s.next
    requires t.visible == s.visible[parent := items] && t.native == s.native[s.menus[parent] := items]
    ensures Agrees(t) && Items(t, parent) == items
    ensures forall p :: p != parent ==> Items(t, p) == Items(s, p)
  {
    forall p ensures AgreesAt(t, p) {
      assert AgreesAt(s, p);
    }
  }

  lemma SortedWithOneMore(items: seq<Id>, id: Id)
    requires IsSorted(items)
    ensures var more := Sort(items + [id]);
      && IsSorted(more) && multiset(more) == multiset(items) + multiset{id}
      && InsertAt(items, IndexOf(more, id), id) == more && RemoveFirst(more, id) == items
  {
    SortIsSorted(items + [id]);
    InsertAtFirstIndex(items, Sort(items + [id]), id);
  }

  lemma IndexAfterAdd(s: State, parent: Id, id: Id)
    ensures Items(AddToVisible(s, parent, id), parent) == Sort(Items(s, parent) + [id])
  {
  }

  lemma InsertSucceeds(s: State, id: Id, parent: Id, f: Faults)
    requires Agrees(s) && parent in s.menus && f.insertOk
    ensures var t := Insert(s, id, parent, s.menus[parent], f);
      && t.menus == s.menus && t.next == s.next
      && t.visible == s.visible[parent := Sort(Items(s, parent) + [id])]
      && t.native == s.native[s.menus[parent] := Sort(Items(s, parent) + [id])]
  {
    assert AgreesAt(s, parent);
    SortedWithOneMore(Items(s, parent), id);
  }

  lemma TakenBack(visible: map<Id, seq<Id>>, parent: Id, more: seq<Id>, items: seq<Id>)
    ensures visible[parent := more][parent := items] == visible[parent := items]
  {
  }

  lemma AlreadyThere(native: map<Handle, seq<Id>>, menu: Handle)
    requires menu in native
    ensures native[menu := native[menu]] == native
  {
  }

  lemma DelAfterAdd(s: State, parent: Id, id: Id)
    requires IsSorted(Items(s, parent))
    ensures DelFromVisible(AddToVisible(s, parent, id), parent, id)
         == s.(visible := s.visible[parent := Items(s, parent)])
  {
    SortedWithOneMore(Items(s, parent), id);
    TakenBack(s.visible, parent, Sort(Items(s, parent) + [id]), Items(s, parent));
  }

  lemma InsertFails(s: State, id: Id, parent: Id, f: Faults)
    requires Agrees(s) && parent in s.menus && !f.insertOk
    ensures Insert(s, id, parent, s.menus[parent], f) == s.(visible := s.visible[parent := Items(s, parent)])
    ensures s.native == s.native[s.menus[parent] := Items(s, parent)]
  {
    assert AgreesAt(s, parent);
    DelAfterAdd(s, parent, id);
    AlreadyThere(s.native, s.menus[parent]);
  }

  lemma InsertAgrees(s: State, id: Id, parent: Id, f: Faults)
    requires Agrees(s) && parent in s.menus
    ensures var t := Insert(s, id, parent, s.menus[parent], f);
      && Agrees(t)
      && Items(t, parent) == (if f.insertOk then Sort(Items(s, parent) + [id]) else Items(s, parent))
      && forall p :: p != parent ==> Items(t, p) == Items(s, p)
  {
    var items, t := Items(s, parent), Insert(s, id, parent, s.menus[parent], f);
    assert AgreesAt(s, parent);
    if f.insertOk {
      InsertSucceeds(s, id, parent, f);
      SortIsSorted(items + [id]);
      BothChanged(s, t, parent, Sort(items + [id]));
    } else {
      InsertFails(s, id, parent, f);
      BothChanged(s, t, parent, items);
    }
  }

  lemma ConvertAgrees(s: State, parent: Id, f: Faults)
    requires Agrees(s) && parent !in s.menus
    ensures var (t, ok) := Convert(s, parent, f);
      && Agrees(t) && (ok ==> parent in t.menus)
      && forall p :: Items(t, p) == Items(s, p)
  {
    var t := Convert(s, parent, f).0;
    forall p ensures AgreesAt(t, p) {
      assert AgreesAt(s, p);
    }
  }

  /** Adding or updating keeps the agreement, whichever native calls fail: a failed update
      becomes an insertion, a failed insertion is taken back. */
  lemma AddOrUpdateAgrees(s: State, id: Id, parent: Id, f: Faults)
    requires Agrees(s)
    ensures var t := AddOrUpdate(s, id, parent, f);
      && Agrees(t)
      && (forall p :: p != parent ==> Items(t, p) == Items(s, p))
      && (Items(t, parent) == Items(s, parent) || Items(t, parent) == Sort(Items(s, parent) + [id]))
  {
    if f.titleOk {
      if parent !in s.menus {
        ConvertAgrees(s, parent, f);
        var (t, ok) := Convert(s, parent, f);
        if ok { InsertAgrees(t, id, parent, f); }
      } else if !(id in Items(s, parent) && f.setOk) {
        InsertAgrees(s, id, parent, f);
      }
    }
  }

  /** `t` has new items for one parent in the index alone. */
  lemma IndexChanged(s: State, t: State, parent: Id, items: seq<Id>)
    requires Agrees(s) && IsSorted(items)
    requires t.menus == s.menus && t.next == s.next && t.native == s.native
    requires t.visible == s.visible[parent := items]
    ensures Agrees(t) <==> items == Items(s, parent)
  {
    assert AgreesAt(s, parent);
    assert Items(t, parent) == items;
    if items == Items(s, parent) {
      forall p ensures AgreesAt(t, p) {
        assert AgreesAt(s, p);
      }
    } else {
      assert !AgreesAt(t, parent);
    }
  }

  /** A separator keeps the agreement if and only if the native call succeeds. */
  lemma SeparatorAgreesIff(s: State, id: Id, parent: Id, f: Faults)
    requires Agrees(s)
    ensures Agrees(Separator(s, id, parent, f)) <==> parent in s.menus && f.insertOk
    ensures Items(Separator(s, id, parent, f), parent) == Sort(Items(s, parent) + [id])
  {
    var items := Items(s, parent);
    assert AgreesAt(s, parent);
    SortedWithOneMore(items, id);
    if parent in s.menus && f.insertOk {
      BothChanged(s, Separator(s, id, parent, f), parent, Sort(items + [id]));
    } else {
      assert |multiset(Sort(items + [id]))| == |items| + 1;
      IndexChanged(s, Separator(s, id, parent, f), parent, Sort(items + [id]));
    }
  }

  lemma RemoveKeepsSorted(items: seq<Id>, id: Id)
    requires IsSorted(items)
    ensures IsSorted(RemoveFirst(items, id))
    ensures RemoveFirst(items, id) == items <==> id !in items
  {
    if id in items { CutSorted(items, IndexOf(items, id)); }
  }

  /** Hiding keeps the agreement if and only if DeleteMenu does not refuse quietly to
      delete an item that is listed; the list loses the item's first occurrence unless
      the refusal is reported. */
  lemma HideAgreesIff(s: State, id: Id, parent: Id, f: Faults)
    requires Agrees(s)
    ensures Agrees(Hide(s, id, parent, f)) <==> !(f.deletion.RefusesQuietly? && id in Items(s, parent))
    ensures Items(Hide(s, id, parent, f), parent)
         == if f.deletion.Refuses? then Items(s, parent) else RemoveFirst(Items(s, parent), id)
  {
    var items := Items(s, parent);
    assert AgreesAt(s, parent);
    RemoveKeepsSorted(items, id);
    if f.deletion.Deletes? && parent in s.menus && id in NativeItems(s, s.menus[parent]) {
      BothChanged(s, Hide(s, id, parent, f), parent, RemoveFirst(items, id));
    } else if f.deletion.RefusesQuietly? {
      IndexChanged(s, Hide(s, id, parent, f), parent, RemoveFirst(items, id));
    }
  }

  // ---- histories ----

  datatype Op =
    | DoAddOrUpdate(id: Id, parent: Id, f: Faults)
    | DoSeparator(id: Id, parent: Id, f: Faults)
    | DoHide(id: Id, parent: Id, f: Faults)

  function Do(s: State, op: Op): State {
    match op
    case DoAddOrUpdate(id, parent, f) => AddOrUpdate(s, id, parent, f)
    case DoSeparator(id, parent, f) => Separator(s, id, parent, f)
    case DoHide(id, parent, f) => Hide(s, id, parent, f)
  }

  function DoAll(s: State, ops: seq<Op>): State {
    if ops == [] then s else Do(DoAll(s, ops[..|ops| - 1]), ops[|ops| - 1])
  }

  /** A native failure the code does not undo: a separator that is not inserted, a listed
      item that is quietly not deleted. */
  predicate Strikes(s: State, op: Op) {
    match op
    case DoAddOrUpdate(_, _, _) => false
    case DoSeparator(_, parent, f) => parent !in s.menus || !f.insertOk
    case DoHide(id, parent, f) => f.deletion.RefusesQuietly? && id in Items(s, parent)
  }

  lemma DoAgreesIff(s: State, op: Op)
    requires Agrees(s)
    ensures Agrees(Do(s, op)) <==> !Strikes(s, op)
  {
    match op
    case DoAddOrUpdate(id, parent, f) => AddOrUpdateAgrees(s, id, parent, f);
    case DoSeparator(id, parent, f) => SeparatorAgreesIff(s, id, parent, f);
    case DoHide(id, parent, f) => HideAgreesIff(s, id, parent, f);
  }

  // ---- what an operation leaves alone ----

  /** Other parents keep their list, their menu and what is shown in it. */
  lemma OthersUntouched(s: State, op: Op, p: Id)
    requires Agrees(s) && p != op.parent
    ensures var t := Do(s, op);
      && Items(t, p) == Items(s, p)
      && (p in s.menus <==> p in t.menus)
      && (p in s.menus ==> t.menus[p] == s.menus[p] && NativeItems(t, t.menus[p]) == NativeItems(s, s.menus[p]))
  {
    hide Sort, RemoveFirst, IndexOf, InsertAt;
    assert AgreesAt(s, p);
    match op
    case DoAddOrUpdate(id, parent, f) =>
      AddOrUpdateAgrees(s, id, parent, f);
      assert AgreesAt(AddOrUpdate(s, id, parent, f), p);
      MenusAfterAdd(s, id, parent, f);
    case DoSeparator(id, parent, f) =>
    case DoHide(id, parent, f) =>
  }

  /** A parent gets a menu with its first item, a new one, and keeps it; an inserted item is
      found again by the menu it was put in. */
  lemma MenusAfterAdd(s: State, id: Id, parent: Id, f: Faults)
    ensures var t := AddOrUpdate(s, id, parent, f);
      && t.menus == (if parent !in s.menus && f.titleOk && f.createOk && f.linkOk then s.menus[parent := s.next]
                     else s.menus)
      && t.menuOf == if f.titleOk && f.insertOk && parent in t.menus
                        && (parent in s.menus ==> id !in Items(s, parent) || !f.setOk)
                     then s.menuOf[id := t.menus[parent]] else s.menuOf
  {
    hide Sort, RemoveFirst, IndexOf, InsertAt;
    if f.titleOk && parent !in s.menus {
      ConvertedMenus(s, parent, f);
    }
  }

  /** A menu that could not be linked to its item stays behind, empty and without a parent. */
  lemma ConvertedMenus(s: State, parent: Id, f: Faults)
    ensures var (t, ok) := Convert(s, parent, f);
      && ok == (f.createOk && f.linkOk) && t.menuOf == s.menuOf && t.visible == s.visible
      && t.menus == (if ok then s.menus[parent := s.next] else s.menus)
      && t.native == (if f.createOk then s.native[s.next := []] else s.native)
      && t.next == if f.createOk then s.next + 1 else s.next
  {
  }

  /** The failures that are not undone leave the native menus as they were. */
  lemma StrikeIsInTheIndex(s: State, op: Op)
    requires Strikes(s, op)
    ensures var t := Do(s, op);
      && t.native == s.native && t.menus == s.menus
      && multiset(Items(t, op.parent))
         == if op.DoSeparator? then multiset(Items(s, op.parent)) + multiset{op.id}
            else multiset(Items(s, op.parent)) - multiset{op.id}
  {
    hide Sort, RemoveFirst, IndexOf, InsertAt;
    RemovedItems(Items(s, op.parent), op.id);
  }

  lemma RemovedItems(items: seq<Id>, id: Id)
    ensures multiset(RemoveFirst(items, id)) == multiset(items) - multiset{id}
  {
    var n := IndexOf(items, id);
    if n < |items| { CutOut(items, n); }
  }

  // ---- the start ----

  /** The tray before createMenu. */
  const EMPTY := State(map[], map[], map[], map[], 1)

  /** createMenu: the root menu, kept even if its style cannot be set. */
  function CreateMenu(s: State, createOk: bool, infoOk: bool): (State, bool) {
    if !createOk then (s, false)
    else (s.(menus := s.menus[0 := s.next], native := s.native[s.next := []], next := s.next + 1), infoOk)
  }

  /** A tray that came up: the root menu, empty. */
  const STARTED: State := CreateMenu(EMPTY, true, true).0

  /** The tray comes up exactly if the root menu is created and its style is set; a root
      menu is left behind exactly if it was created. */
  lemma TrayComesUp(createOk: bool, infoOk: bool)
    ensures var (s, ok) := CreateMenu(EMPTY, createOk, infoOk);
      && (ok <==> createOk && infoOk) && (0 in s.menus <==> createOk) && Agrees(s) && Items(s, 0) == []
      && (ok ==> s == STARTED)
  {
  }

  lemma StartAgrees()
    ensures Agrees(STARTED)
  {
  }

  predicate Sound(ops: seq<Op>, k: nat)
    requires k < |ops|
  {
    !Strikes(DoAll(STARTED, ops[..k]), ops[k])
  }

  ghost predicate AgreesAfter(ops: seq<Op>, k: nat)
    requires k <= |ops|
  {
    Agrees(DoAll(STARTED, ops[..k]))
  }

  /** Main result: through a history of additions, updates, separators and hidings, every
      parent's list is all the time sorted and its native menu if and only if none of the
      two failures the code does not undo ever strikes; every other failure is harmless. */
  lemma {:induction false} MenuAlwaysAgreesIff(ops: seq<Op>)
    ensures (forall k :: 0 <= k <= |ops| ==> AgreesAfter(ops, k)) <==> (forall k :: 0 <= k < |ops| ==> Sound(ops, k))
    decreases |ops|
  {
    hide *;
    if ops == [] {
      StartAgreesAfter();
    } else {
      var last := |ops| - 1;
      MenuAlwaysAgreesIff(ops[..last]);
      forall k | 0 <= k <= last ensures AgreesAfter(ops[..last], k) == AgreesAfter(ops, k) { SamePrefix(ops, k); }
      forall k | 0 <= k < last ensures Sound(ops[..last], k) == Sound(ops, k) { SamePrefix(ops, k); }
      if AgreesAfter(ops, last) { LastAgreesIff(ops); }
    }
  }

  lemma StartAgreesAfter()
    ensures AgreesAfter([], 0)
  {
    StartAgrees();
  }

  lemma SamePrefix(ops: seq<Op>, k: nat)
    requires ops != [] && k < |ops|
    ensures AgreesAfter(ops[..|ops| - 1], k) == AgreesAfter(ops, k)
    ensures k < |ops| - 1 ==> Sound(ops[..|ops| - 1], k) == Sound(ops, k)
  {
    assert ops[..|ops| - 1][..k] == ops[..k];
  }

  lemma LastAgreesIff(ops: seq<Op>)
    requires ops != [] && AgreesAfter(ops, |ops| - 1)
    ensures AgreesAfter(ops, |ops|) <==> Sound(ops, |ops| - 1)
  {
    var last := |ops| - 1;
    assert ops[..|ops|] == ops;
    DoAgreesIff(DoAll(STARTED, ops[..last]), ops[last]);
  }

  // ---- failures that can be reached ----

  lemma AddedItem(id: Id)
    ensures Agrees(AddOrUpdate(STARTED, id, 0, NO_FAULTS))
    ensures Items(AddOrUpdate(STARTED, id, 0, NO_FAULTS), 0) == [id]
  {
    StartAgrees();
    AddOrUpdateAgrees(STARTED, id, 0, NO_FAULTS);
    ItemsAfterAdd(STARTED, id, 0, NO_FAULTS);
    SortOne(id);
  }

  lemma SortOne(id: Id)
    ensures Sort([] + [id]) == [id]
  {
    assert ([] + [id])[..0] == [];
    assert Sort([]) == [] && Position([], id) == 0 && InsertAt([], 0, id) == [id];
  }

  lemma TwoOps(a: Op, b: Op)
    ensures DoAll(STARTED, [a, b]) == Do(Do(STARTED, a), b)
  {
    assert [a, b][..1] == [a] && [a][..0] == [];
    assert DoAll(STARTED, [a]) == Do(DoAll(STARTED, []), a);
  }

  /** An item added and then quietly not deleted is in the native menu and not in the list. */
  lemma QuietRefusalBreaks(id: Id)
    ensures !Agrees(DoAll(STARTED, [DoAddOrUpdate(id, 0, NO_FAULTS),
                                    DoHide(id, 0, NO_FAULTS.(deletion := RefusesQuietly))]))
  {
    TwoOps(DoAddOrUpdate(id, 0, NO_FAULTS), DoHide(id, 0, NO_FAULTS.(deletion := RefusesQuietly)));
    AddedItem(id);
    HideAgreesIff(AddOrUpdate(STARTED, id, 0, NO_FAULTS), id, 0, NO_FAULTS.(deletion := RefusesQuietly));
  }

  /** A separator that is not inserted is in the list and not in the native menu. */
  lemma LostSeparatorBreaks(id: Id)
    ensures !Agrees(DoAll(STARTED, [DoSeparator(id, 0, NO_FAULTS.(insertOk := false))]))
  {
    var op := DoSeparator(id, 0, NO_FAULTS.(insertOk := false));
    assert [op][..0] == [] && DoAll(STARTED, [op]) == Do(DoAll(STARTED, []), op);
    StartAgrees();
    DoAgreesIff(STARTED, op);
  }

  /** An item added, and then updated in vain, is shown twice. */
  lemma ShownTwice(id: Id)
    ensures var first, second := DoAddOrUpdate(id, 0, NO_FAULTS), DoAddOrUpdate(id, 0, NO_FAULTS.(setOk := false));
      var s := DoAll(STARTED, [first, second]);
      Agrees(s) && multiset(Items(s, 0))[id] == 2
  {
    var s, f := AddOrUpdate(STARTED, id, 0, NO_FAULTS), NO_FAULTS.(setOk := false);
    TwoOps(DoAddOrUpdate(id, 0, NO_FAULTS), DoAddOrUpdate(id, 0, f));
    AddedItem(id);
    AddOrUpdateAgrees(s, id, 0, f);
    DuplicateIff(s, id, 0, f);
  }

  /** The items after an addition, in full. */
  lemma ItemsAfterAdd(s: State, id: Id, parent: Id, f: Faults)
    requires Agrees(s)
    ensures Items(AddOrUpdate(s, id, parent, f), parent)
         == if f.titleOk && f.insertOk && (if parent in s.menus then !(id in Items(s, parent) && f.setOk)
                                          else f.createOk && f.linkOk)
            then Sort(Items(s, parent) + [id]) else Items(s, parent)
  {
    if f.titleOk {
      if parent !in s.menus {
        ConvertAgrees(s, parent, f);
        var (t, ok) := Convert(s, parent, f);
        if ok { InsertAgrees(t, id, parent, f); }
      } else if !(id in Items(s, parent) && f.setOk) {
        InsertAgrees(s, id, parent, f);
      }
    }
  }

  lemma NoItemsWithoutMenu(s: State, parent: Id)
    requires Agrees(s) && parent !in s.menus
    ensures Items(s, parent) == []
  {
    assert AgreesAt(s, parent);
  }

  lemma CountAfterSort(items: seq<Id>, id: Id)
    ensures multiset(Sort(items + [id]))[id] == multiset(items)[id] + 1
  {
  }

  /** An item is there twice after an addition if and only if it was there, the update
      failed and the insertion did not; hiding it once then leaves one. */
  lemma DuplicateIff(s: State, id: Id, parent: Id, f: Faults)
    requires Agrees(s) && multiset(Items(s, parent))[id] <= 1
    ensures var t := AddOrUpdate(s, id, parent, f);
      && (multiset(Items(t, parent))[id] == 2 <==>
            f.titleOk && id in Items(s, parent) && !f.setOk && f.insertOk)
      && (multiset(Items(t, parent))[id] == 2 ==> id in Items(Hide(t, id, parent, f), parent))
  {
    var t := AddOrUpdate(s, id, parent, f);
    ItemsAfterAdd(s, id, parent, f);
    CountAfterSort(Items(s, parent), id);
    InMultiset(Items(s, parent), id);
    InMultiset(RemoveFirst(Items(t, parent), id), id);
    InMultiset(Items(t, parent), id);
    if parent !in s.menus { NoItemsWithoutMenu(s, parent); }
    AddOrUpdateAgrees(s, id, parent, f);
    HideAgreesIff(t, id, parent, f);
    RemovedCount(Items(t, parent), id);
  }

  lemma InMultiset(items: seq<Id>, id: Id)
    ensures id in items <==> multiset(items)[id] >= 1
  {
  }

  lemma RemovedCount(items: seq<Id>, id: Id)
    ensures id in items ==> multiset(RemoveFirst(items, id))[id] == multiset(items)[id] - 1
  {
    if id in items {
      var n := IndexOf(items, id);
      assert items == items[..n] + [id] + items[n + 1..];
    }
  }

  // ---- the tray as the program has it ----

  /** sort.Slice by value; which algorithm it is makes no difference. */
  method SortSlice(s: seq<Id>) returns (t: seq<Id>)
    ensures IsSorted(t) && multiset(t) == multiset(s)
  {
    t := [];
    for k := 0 to |s|
      invariant IsSorted(t) && multiset(t) == multiset(s[..k])
    {
      InsertSorted(t, s[k]);
      InsertedAt(t, Position(t, s[k]), s[k]);
      assert s[..k + 1] == s[..k] + [s[k]];
      t := InsertAt(t, Position(t, s[k]), s[k]);
    }
    assert s[..|s|] == s;
  }

  class Tray {
    var visibleItems: map<Id, seq<Id>>
    var menus: map<Id, Handle>
    var menuOf: map<Id, Handle>
    var native: map<Handle, seq<Id>>
    var next: Handle

    function Value(): State
      reads this
    {
      State(visibleItems, menus, menuOf, native, next)
    }

    constructor ()
      ensures Value() == EMPTY
    {
      visibleItems, menus, menuOf, native, next := map[], map[], map[], map[], 1;
    }

    /** createMenu; without it the tray does not come up. */
    method CreateRootMenu(createOk: bool, infoOk: bool) returns (ok: bool)
      modifies this`menus, this`native, this`next
      ensures (Value(), ok) == CreateMenu(old(Value()), createOk, infoOk)
    {
      if !createOk {
        return false;
      }
      native, menus := native[next := []], menus[0 := next];
      next := next + 1;
      return infoOk;
    }

    method GetVisibleItemIndex(parent: Id, id: Id) returns (index: int)
      ensures index == if id in Items(Value(), parent) then IndexOf(Items(Value(), parent), id) else -1
    {
      var items := if parent in visibleItems then visibleItems[parent] else [];
      for i := 0 to |items|
        invariant id !in items[..i]
      {
        if items[i] == id {
          return i;
        }
      }
      assert items[..|items|] == items;
      return -1;
    }

    method AddToVisibleItems(parent: Id, id: Id)
      modifies this`visibleItems
      ensures Value() == AddToVisible(old(Value()), parent, id)
    {
      if parent !in visibleItems {
        assert [id][..0] == [];
        assert Sort([] + [id]) == [id];
        visibleItems := visibleItems[parent := [id]];
      } else {
        var appended := visibleItems[parent] + [id];
        var sorted := SortSlice(appended);
        SortIsSorted(appended);
        SortedIsUnique(sorted, Sort(appended));
        visibleItems := visibleItems[parent := sorted];
      }
    }

    method DelFromVisibleItems(parent: Id, id: Id)
      modifies this`visibleItems
      ensures Value() == DelFromVisible(old(Value()), parent, id)
    {
      var items := if parent in visibleItems then visibleItems[parent] else [];
      var i := GetVisibleItemIndex(parent, id);
      if i != -1 {
        items := items[..i] + items[i + 1..];
      }
      visibleItems := visibleItems[parent := items];
    }

    method InsertMenuItem(menu: Handle, position: nat, id: Id, ok: bool)
      modifies this`native
      ensures Value() == if ok then NativeInsert(old(Value()), menu, position, id) else old(Value())
    {
      if ok {
        var items := if menu in native then native[menu] else [];
        native := native[menu := InsertAt(items, position, id)];
      }
    }

    method ConvertToSubMenu(parent: Id, f: Faults) returns (ok: bool)
      modifies this`menus, this`native, this`next
      ensures (Value(), ok) == Convert(old(Value()), parent, f)
    {
      if !f.createOk {
        return false;
      }
      var menu := next;
      native, next := native[menu := []], next + 1;
      if !f.linkOk {
        return false;
      }
      menus := menus[parent := menu];
      return true;
    }

    method AddOrUpdateMenuItem(id: Id, parent: Id, f: Faults)
      modifies this
      ensures Value() == AddOrUpdate(old(Value()), id, parent, f)
    {
      if !f.titleOk {
        return;
      }
      var res := false;
      if parent !in menus {
        var converted := ConvertToSubMenu(parent, f);
        if !converted {
          return;
        }
      } else {
        var index := GetVisibleItemIndex(parent, id);
        if index != -1 {
          res := f.setOk;
        }
      }
      if !res {
        InsertVisible(id, parent, f);
      }
    }

    /** The insertion at the end of addOrUpdateMenuItem. */
    method InsertVisible(id: Id, parent: Id, f: Faults)
      requires parent in menus
      modifies this`visibleItems, this`native, this`menuOf
      ensures Value() == Insert(old(Value()), id, parent, old(menus[parent]), f)
    {
      var menu := menus[parent];
      ghost var start := Value();
      AddToVisibleItems(parent, id);
      IndexAfterAdd(start, parent, id);
      assert id in multiset(Items(start, parent) + [id]);
      var position := GetVisibleItemIndex(parent, id);
      assert id in Items(Value(), parent);
      InsertMenuItem(menu, position, id, f.insertOk);
      if !f.insertOk {
        DelFromVisibleItems(parent, id);
        return;
      }
      menuOf := menuOf[id := menu];
    }

    method AddSeparatorMenuItem(id: Id, parent: Id, f: Faults)
      modifies this`visibleItems, this`native
      ensures Value() == Separator(old(Value()), id, parent, f)
    {
      ghost var start := Value();
      AddToVisibleItems(parent, id);
      IndexAfterAdd(start, parent, id);
      assert id in multiset(Items(start, parent) + [id]);
      var position := GetVisibleItemIndex(parent, id);
      assert id in Items(Value(), parent);
      if parent in menus {
        InsertMenuItem(menus[parent], position, id, f.insertOk);
      }
    }

    method HideMenuItem(id: Id, parent: Id, f: Faults)
      modifies this`visibleItems, this`native
      ensures Value() == Hide(old(Value()), id, parent, f)
    {
      var there := parent in menus && menus[parent] in native && id in native[menus[parent]];
      if there && f.deletion.Deletes? {
        native := native[menus[parent] := RemoveFirst(native[menus[parent]], id)];
      } else if !f.deletion.RefusesQuietly? {
        return;
      }
      DelFromVisibleItems(parent, id);
    }
  }
}
