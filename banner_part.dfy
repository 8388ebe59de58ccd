/**
  The banner part (bannerPart.ts): the main toolbar built from the product's
  button list, the banner message with its focusable actions, and the
  part's visibility and height.
*/
module Banner {

  import opened Common

  // ---------------------------------------------------------------------
  // Focus index arithmetic (`focusNextAction`, `focusPreviousAction`)
  // ---------------------------------------------------------------------

  /** `idx < len ? idx + 1 : 0`. Index -1 is the banner itself; `length` is
      the banner's own close action. */
  function NextFocusIndex(index: int, length: nat): (r: int)
    ensures -1 <= index <= length ==> 0 <= r <= length
    ensures index == length ==> r == 0
  {
    if index < length then index + 1 else 0
  }

  /** `idx > 0 ? idx - 1 : len`. */
  function PreviousFocusIndex(index: int, length: nat): (r: int)
    ensures -1 <= index <= length ==> 0 <= r <= length
    ensures index <= 0 ==> r == length
  {
    if index > 0 then index - 1 else length
  }

  /** On the positions 0..length, previous undoes next and next undoes previous. */
  lemma FocusStepsAreInverse(index: int, length: nat)
    requires 0 <= index <= length
    ensures PreviousFocusIndex(NextFocusIndex(index, length), length) == index
    ensures NextFocusIndex(PreviousFocusIndex(index, length), length) == index
  {
  }

  /** `k` presses of "next" from `index`. */
  function NextFocusIndexTimes(index: int, length: nat, k: nat): int
    decreases k
  {
    if k == 0 then index else NextFocusIndex(NextFocusIndexTimes(index, length, k - 1), length)
  }

  /** Below the close action, each press moves one position on. */
  lemma {:induction false} NextFocusWalks(index: int, length: nat, k: nat)
    requires 0 <= index && index + k <= length
    ensures NextFocusIndexTimes(index, length, k) == index + k
    decreases k
  {
    if k > 0 {
      NextFocusWalks(index, length, k - 1);
    }
  }

  lemma {:induction false} NextFocusTimesCompose(index: int, length: nat, a: nat, b: nat)
    ensures NextFocusIndexTimes(index, length, a + b) ==
            NextFocusIndexTimes(NextFocusIndexTimes(index, length, a), length, b)
    decreases b
  {
    if b > 0 {
      NextFocusTimesCompose(index, length, a, b - 1);
    }
  }

  /** "Next" cycles through the positions 0..length: `length + 1` presses
      come back to where they started. */
  lemma NextFocusCycles(index: int, length: nat)
    requires 0 <= index <= length
    ensures NextFocusIndexTimes(index, length, length + 1) == index
  {
    var toEnd := length - index;
    NextFocusTimesCompose(index, length, toEnd + 1, index);
    NextFocusTimesCompose(index, length, toEnd, 1);
    NextFocusWalks(index, length, toEnd);
    NextFocusWalks(0, length, index);
  }

  // ---------------------------------------------------------------------
  // Banner items and the part's state
  // ---------------------------------------------------------------------

  /** A banner message is a plain string or markdown. */
  datatype BannerMessage = Plain(text: string) | Markdown(source: string)

  /** `IBannerItem`: `actionCount` is `actions?.length`; `hasOnClose` is
      whether `onClose` is a function. */
  datatype BannerItem = BannerItem(id: string, message: BannerMessage, ariaLabel: Option<string>,
                                   actionCount: Option<nat>, hasOnClose: bool)

  /** `this.item?.actions?.length ?? 0`. */
  function ActionCount(item: Option<BannerItem>): nat {
    if item.Some? then item.value.actionCount.GetOr(0) else 0
  }

  /** `getAriaLabel`: a non-empty `ariaLabel`, else a string message, else nothing. */
  function AriaLabel(item: BannerItem): (r: Option<string>)
    ensures Truthy(item.ariaLabel) ==> r == item.ariaLabel
    ensures !Truthy(item.ariaLabel) && item.message.Plain? ==> r == Some(item.message.text)
    ensures r.None? <==> !Truthy(item.ariaLabel) && item.message.Markdown?
  {
    if Truthy(item.ariaLabel) then item.ariaLabel
    else if item.message.Plain? then Some(item.message.text)
    else None
  }

  /** The toolbar's height, and what `show` adds for a message. */
  const ToolbarHeight: int := 33
  const MessageHeight: int := 26
  const InitialHeight: int := 60

  // ---------------------------------------------------------------------
  // Toolbar buttons and actions (`GetActions`)
  // ---------------------------------------------------------------------

  /** An entry of `product.mainToolbarActions`. */
  datatype Button = Button(id: string, caption: string, group: Option<string>,
                           menuId: Option<string>, commandId: Option<string>, iconClass: string)

  /** A registered menu, by its id. */
  datatype MenuId = MenuId(id: string)

  /** `MenuId.getMenuIdbyId`: the registered menu with that id, or
      `undefined` when no menu has it. The menu registry lies outside the
      part and is not changed by it. */
  type MenuLookup = string -> Option<MenuId>

  /** What `GetActions` produces: a separator, a `MyAction` that opens a
      menu (the looked-up menu, possibly none), or an `Action` that runs a
      command. */
  datatype Action =
    | Separator
    | MenuAction(id: string, caption: string, menu: Option<MenuId>, cssClass: string)
    | CommandAction(id: string, caption: string, cssClass: string, commandId: string)

  /** JavaScript's `<` on strings: lexicographic order of the characters. */
  predicate LexLess(a: string, b: string)
    decreases |a|
  {
    if a == [] then b != []
    else if b == [] then false
    else if a[0] != b[0] then a[0] < b[0]
    else LexLess(a[1..], b[1..])
  }

  lemma {:induction false} LexLessIrreflexive(a: string)
    ensures !LexLess(a, a)
    decreases |a|
  {
    if a != [] {
      LexLessIrreflexive(a[1..]);
    }
  }

  lemma {:induction false} LexLessAsymmetric(a: string, b: string)
    ensures LexLess(a, b) ==> !LexLess(b, a)
    decreases |a|
  {
    if a != [] && b != [] && a[0] == b[0] {
      LexLessAsymmetric(a[1..], b[1..]);
    }
  }

  lemma {:induction false} LexLessTotal(a: string, b: string)
    ensures a == b || LexLess(a, b) || LexLess(b, a)
    decreases |a|
  {
    if a != [] && b != [] && a[0] == b[0] {
      LexLessTotal(a[1..], b[1..]);
      if a[1..] == b[1..] {
        assert a == [a[0]] + a[1..] && b == [b[0]] + b[1..];
      }
    }
  }

  lemma {:induction false} LexLessTransitive(a: string, b: string, c: string)
    requires LexLess(a, b) && LexLess(b, c)
    ensures LexLess(a, c)
    decreases |a|
  {
    if a != [] && a[0] == b[0] && b[0] == c[0] {
      LexLessTransitive(a[1..], b[1..], c[1..]);
    }
  }

  /** "`a` does not sort after `b`". */
  predicate LexLessEq(a: string, b: string) {
    !LexLess(b, a)
  }

  lemma LexLessEqTransitive(a: string, b: string, c: string)
    requires LexLessEq(a, b) && LexLessEq(b, c)
    ensures LexLessEq(a, c)
  {
    LexLessTotal(a, b);
    LexLessTotal(b, c);
    if a != b && b != c {
      LexLessTransitive(a, b, c);
      LexLessAsymmetric(a, c);
    }
  }

  /** The sort key: the group, `''` when there is none. */
  function GroupKey(b: Button): string {
    b.group.GetOr("")
  }

  predicate SortedByGroup(s: seq<Button>) {
    forall i, j :: 0 <= i < j < |s| ==> LexLessEq(GroupKey(s[i]), GroupKey(s[j]))
  }

  /** Insert `x` before the first element whose key is not smaller. */
  function InsertByGroup(x: Button, s: seq<Button>): (r: seq<Button>)
    ensures |r| == |s| + 1
  {
    if s == [] then [x]
    else if LexLessEq(GroupKey(x), GroupKey(s[0])) then [x] + s
    else [s[0]] + InsertByGroup(x, s[1..])
  }

  /** `buttons.sort(byGroup)`: `Array.prototype.sort` is stable. */
  function SortByGroup(s: seq<Button>): (r: seq<Button>)
    ensures |r| == |s|
  {
    if s == [] then [] else InsertByGroup(s[0], SortByGroup(s[1..]))
  }

  lemma {:induction false} InsertByGroupPermutes(x: Button, s: seq<Button>)
    ensures multiset(InsertByGroup(x, s)) == multiset{x} + multiset(s)
  {
    if s != [] && !LexLessEq(GroupKey(x), GroupKey(s[0])) {
      InsertByGroupPermutes(x, s[1..]);
      assert s == [s[0]] + s[1..];
    }
  }

  lemma {:induction false} InsertByGroupSorted(x: Button, s: seq<Button>)
    requires SortedByGroup(s)
    ensures SortedByGroup(InsertByGroup(x, s))
  {
    if s == [] {
    } else if LexLessEq(GroupKey(x), GroupKey(s[0])) {
      var r := [x] + s;
      forall i, j | 0 <= i < j < |r|
        ensures LexLessEq(GroupKey(r[i]), GroupKey(r[j]))
      {
        if i == 0 && j > 1 {
          LexLessEqTransitive(GroupKey(x), GroupKey(s[0]), GroupKey(s[j - 1]));
        }
      }
    } else {
      var rest := InsertByGroup(x, s[1..]);
      InsertByGroupSorted(x, s[1..]);
      InsertByGroupPermutes(x, s[1..]);
      LexLessAsymmetric(GroupKey(s[0]), GroupKey(x));
      var r := [s[0]] + rest;
      forall j | 0 < j < |r|
        ensures LexLessEq(GroupKey(s[0]), GroupKey(r[j]))
      {
        assert r[j] in multiset(rest);
        if r[j] != x {
          assert r[j] in multiset(s[1..]);
          var k :| 0 <= k < |s[1..]| && s[1..][k] == r[j];
          assert s[k + 1] == r[j];
        }
      }
    }
  }

  /** The sorted list is ordered by group and holds the same buttons. */
  lemma {:induction false} SortByGroupCorrect(s: seq<Button>)
    ensures SortedByGroup(SortByGroup(s))
    ensures multiset(SortByGroup(s)) == multiset(s)
  {
    if s != [] {
      SortByGroupCorrect(s[1..]);
      InsertByGroupSorted(s[0], SortByGroup(s[1..]));
      InsertByGroupPermutes(s[0], SortByGroup(s[1..]));
      assert s == [s[0]] + s[1..];
    }
  }

  /** Buttons with the given key. */
  function WithKey(k: string): Button -> bool {
    b => GroupKey(b) == k
  }

  /** The filter of at most one element. */
  lemma FilterShort<T>(p: T -> bool, s: seq<T>)
    requires |s| <= 1
    ensures Filter(p, s) == (if s != [] && p(s[0]) then s else [])
  {
    if s != [] {
      assert s[..|s| - 1] == [];
    }
  }

  lemma FilterCons<T>(p: T -> bool, x: T, s: seq<T>)
    ensures Filter(p, [x] + s) == (if p(x) then [x] else []) + Filter(p, s)
  {
    FilterAppend(p, [x], s);
    FilterShort(p, [x]);
  }

  lemma {:induction false} InsertByGroupStable(x: Button, s: seq<Button>, k: string)
    ensures Filter(WithKey(k), InsertByGroup(x, s)) ==
            (if GroupKey(x) == k then [x] else []) + Filter(WithKey(k), s)
  {
    if s == [] {
      FilterCons(WithKey(k), x, []);
    } else if LexLessEq(GroupKey(x), GroupKey(s[0])) {
      FilterCons(WithKey(k), x, s);
    } else {
      var rest := InsertByGroup(x, s[1..]);
      assert InsertByGroup(x, s) == [s[0]] + rest;
      InsertByGroupStable(x, s[1..], k);
      FilterCons(WithKey(k), s[0], rest);
      assert Filter(WithKey(k), s) == (if GroupKey(s[0]) == k then [s[0]] else []) + Filter(WithKey(k), s[1..]) by {
        assert s == [s[0]] + s[1..];
        FilterCons(WithKey(k), s[0], s[1..]);
      }
      var tail := Filter(WithKey(k), s[1..]);
      if GroupKey(x) == k {
        LexLessIrreflexive(k);
        assert GroupKey(s[0]) != k;
        assert Filter(WithKey(k), rest) == [x] + tail;
        assert Filter(WithKey(k), s) == tail;
      } else {
        assert Filter(WithKey(k), rest) == tail;
      }
    }
  }

  /** The sort is stable: buttons of one group keep their relative order. */
  lemma {:induction false} SortByGroupStable(s: seq<Button>, k: string)
    ensures Filter(WithKey(k), SortByGroup(s)) == Filter(WithKey(k), s)
  {
    if s != [] {
      SortByGroupStable(s[1..], k);
      InsertByGroupStable(s[0], SortByGroup(s[1..]), k);
      FilterCons(WithKey(k), s[0], s[1..]);
      assert s == [s[0]] + s[1..];
    }
  }

  /** Sorting a sorted list changes nothing, so the in-place sort of the
      product's list can run again and again. */
  lemma {:induction false} SortByGroupIdempotent(s: seq<Button>)
    requires SortedByGroup(s)
    ensures SortByGroup(s) == s
  {
    if s != [] {
      assert SortedByGroup(s[1..]) by {
        forall i, j | 0 <= i < j < |s[1..]|
          ensures LexLessEq(GroupKey(s[1..][i]), GroupKey(s[1..][j]))
        {
          assert s[1..][i] == s[i + 1] && s[1..][j] == s[j + 1];
        }
      }
      SortByGroupIdempotent(s[1..]);
      assert s == [s[0]] + s[1..];
    }
  }

  /** The action a button yields: a menu action when it has a menu id, else a
      command action when it has a command id, else none. */
  function ButtonAction(b: Button, menus: MenuLookup): (r: seq<Action>)
    ensures |r| <= 1
    ensures r != [] <==> Truthy(b.menuId) || Truthy(b.commandId)
    ensures Truthy(b.menuId) ==> r == [MenuAction(b.id, b.caption, menus(b.menuId.value), b.iconClass)]
    ensures !Truthy(b.menuId) && Truthy(b.commandId) ==>
              r == [CommandAction(b.id, b.caption, b.iconClass, b.commandId.value)]
  {
    if Truthy(b.menuId) then [MenuAction(b.id, b.caption, menus(b.menuId.value), b.iconClass)]
    else if Truthy(b.commandId) then [CommandAction(b.id, b.caption, b.iconClass, b.commandId.value)]
    else []
  }

  /** Two strings with the same characters, compared one by one. */
  predicate SameText(a: string, b: string)
    decreases |a|
  {
    if a == [] then b == []
    else b != [] && a[0] == b[0] && SameText(a[1..], b[1..])
  }

  lemma {:induction false} SameTextIsEquality(a: string, b: string)
    ensures SameText(a, b) <==> a == b
    decreases |a|
  {
    if a != [] && b != [] {
      SameTextIsEquality(a[1..], b[1..]);
      assert a == [a[0]] + a[1..] && b == [b[0]] + b[1..];
    }
  }

  /** JavaScript's `===` on two groups that may be `undefined`. */
  predicate SameGroup(a: Option<string>, b: Option<string>) {
    (a.None? && b.None?) || (a.Some? && b.Some? && SameText(a.value, b.value))
  }

  lemma SameGroupIsEquality(a: Option<string>, b: Option<string>)
    ensures SameGroup(a, b) <==> a == b
  {
    if a.Some? && b.Some? {
      SameTextIsEquality(a.value, b.value);
    }
  }

  /** Whether a separator goes before the `i`-th (sorted) button: its group,
      as written (`undefined` included), differs from the previous button's. */
  predicate GroupChangesAt(s: seq<Button>, i: nat)
    requires i < |s|
  {
    i > 0 && !SameGroup(s[i - 1].group, s[i].group)
  }

  /** The actions for the first `n` buttons of the sorted list. */
  function ActionsFor(s: seq<Button>, n: nat, menus: MenuLookup): (r: seq<Action>)
    requires n <= |s|
    ensures |r| <= 2 * n
    decreases n
  {
    if n == 0 then []
    else ActionsFor(s, n - 1, menus) + (if GroupChangesAt(s, n - 1) then [Separator] else []) + ButtonAction(s[n - 1], menus)
  }

  /** All actions the buttons yield, without separators. */
  function ButtonActions(s: seq<Button>, n: nat, menus: MenuLookup): seq<Action>
    requires n <= |s|
    decreases n
  {
    if n == 0 then [] else ButtonActions(s, n - 1, menus) + ButtonAction(s[n - 1], menus)
  }

  /** Number of places where the group changes. */
  function GroupChanges(s: seq<Button>, n: nat): nat
    requires n <= |s|
    decreases n
  {
    if n == 0 then 0 else GroupChanges(s, n - 1) + (if GroupChangesAt(s, n - 1) then 1 else 0)
  }

  predicate IsSeparator(a: Action) {
    a.Separator?
  }

  predicate IsNotSeparator(a: Action) {
    !a.Separator?
  }

  /** Without its separators, the action list is the buttons' actions in
      order; buttons with neither a menu nor a command are dropped. */
  lemma {:induction false} ActionsWithoutSeparators(s: seq<Button>, n: nat, menus: MenuLookup)
    requires n <= |s|
    ensures Filter(IsNotSeparator, ActionsFor(s, n, menus)) == ButtonActions(s, n, menus)
    decreases n
  {
    if n > 0 {
      var prefix := ActionsFor(s, n - 1, menus);
      var sep: seq<Action> := if GroupChangesAt(s, n - 1) then [Separator] else [];
      var act := ButtonAction(s[n - 1], menus);
      assert Filter(IsNotSeparator, ActionsFor(s, n, menus)) == Filter(IsNotSeparator, prefix) + act by {
        assert ActionsFor(s, n, menus) == (prefix + sep) + act;
        FilterAppend(IsNotSeparator, prefix + sep, act);
        FilterAppend(IsNotSeparator, prefix, sep);
        FilterNone(IsNotSeparator, sep);
        ButtonActionIsNoSeparator(s[n - 1], menus);
        FilterAll(IsNotSeparator, act);
        assert Filter(IsNotSeparator, prefix + sep) == Filter(IsNotSeparator, prefix);
      }
      ActionsWithoutSeparators(s, n - 1, menus);
    }
  }

  /** There is one separator per change of group. */
  lemma {:induction false} SeparatorPerGroupChange(s: seq<Button>, n: nat, menus: MenuLookup)
    requires n <= |s|
    ensures |Filter(IsSeparator, ActionsFor(s, n, menus))| == GroupChanges(s, n)
    decreases n
  {
    if n > 0 {
      SeparatorPerGroupChange(s, n - 1, menus);
      SeparatorsStep(s, n, menus);
    }
  }

  /** Button `n - 1` adds a separator exactly when it adds a group change. */
  lemma SeparatorsStep(s: seq<Button>, n: nat, menus: MenuLookup)
    requires 0 < n <= |s|
    ensures |Filter(IsSeparator, ActionsFor(s, n, menus))| - |Filter(IsSeparator, ActionsFor(s, n - 1, menus))| ==
            GroupChanges(s, n) - GroupChanges(s, n - 1)
  {
    var prefix := ActionsFor(s, n - 1, menus);
    var sep: seq<Action> := if GroupChangesAt(s, n - 1) then [Separator] else [];
    var act := ButtonAction(s[n - 1], menus);
    assert Filter(IsSeparator, ActionsFor(s, n, menus)) == Filter(IsSeparator, prefix) + sep by {
      assert ActionsFor(s, n, menus) == (prefix + sep) + act;
      FilterAppend(IsSeparator, prefix + sep, act);
      FilterAppend(IsSeparator, prefix, sep);
      FilterAll(IsSeparator, sep);
      ButtonActionIsNoSeparator(s[n - 1], menus);
      FilterNone(IsSeparator, act);
    }
  }

  /** A button's action is never a separator. */
  lemma ButtonActionIsNoSeparator(b: Button, menus: MenuLookup)
    ensures forall i :: 0 <= i < |ButtonAction(b, menus)| ==>
              IsNotSeparator(ButtonAction(b, menus)[i]) && !IsSeparator(ButtonAction(b, menus)[i])
  {
  }

  /** No separator comes before the first button's action. */
  lemma NoLeadingSeparatorBeforeFirstButton(s: seq<Button>, menus: MenuLookup)
    requires |s| > 0
    ensures ActionsFor(s, 1, menus) == ButtonAction(s[0], menus)
  {
  }

  /** The separator test looks at the previous button, not the previous
      action: when the first button yields no action, the list starts with
      a separator. */
  lemma SeparatorCanLead(menus: MenuLookup)
    ensures var s := [Button("a", "A", Some("1"), None, None, ""), Button("b", "B", Some("2"), Some("m"), None, "")];
            ActionsFor(s, |s|, menus) == [Separator, MenuAction("b", "B", menus("m"), "")]
  {
    var s := [Button("a", "A", Some("1"), None, None, ""), Button("b", "B", Some("2"), Some("m"), None, "")];
    assert ActionsFor(s, 1, menus) == [];
  }

  /** The registry `m` after building the actions of the first `n` buttons:
      each button with a menu id registers its action under its id
      (`ToolbarActions.add`), a later one replacing an earlier. */
  function Registered(m: map<string, Action>, s: seq<Button>, n: nat, menus: MenuLookup): map<string, Action>
    requires n <= |s|
    decreases n
  {
    if n == 0 then m
    else
      var b := s[n - 1];
      if Truthy(b.menuId) then Registered(m, s, n - 1, menus)[b.id := MenuAction(b.id, b.caption, menus(b.menuId.value), b.iconClass)]
      else Registered(m, s, n - 1, menus)
  }

  /** Every button with a menu id ends up registered under its id, with a
      menu action. */
  lemma {:induction false} MenuButtonsRegistered(m: map<string, Action>, s: seq<Button>, n: nat, i: nat, menus: MenuLookup)
    requires i < n <= |s| && Truthy(s[i].menuId)
    ensures s[i].id in Registered(m, s, n, menus) && Registered(m, s, n, menus)[s[i].id].MenuAction?
    decreases n
  {
    if i < n - 1 {
      MenuButtonsRegistered(m, s, n - 1, i, menus);
    }
  }

  /** The last menu button of an id is the one registered under it, with
      the menu its menu id looks up: `undefined` when no menu has that id. */
  lemma {:induction false} RegisteredMenuIsLookedUp(m: map<string, Action>, s: seq<Button>, n: nat, i: nat, menus: MenuLookup)
    requires i < n <= |s| && Truthy(s[i].menuId)
    requires forall j :: i < j < n && Truthy(s[j].menuId) ==> s[j].id != s[i].id
    ensures s[i].id in Registered(m, s, n, menus)
    ensures Registered(m, s, n, menus)[s[i].id] == MenuAction(s[i].id, s[i].caption, menus(s[i].menuId.value), s[i].iconClass)
    decreases n
  {
    if i < n - 1 {
      RegisteredMenuIsLookedUp(m, s, n - 1, i, menus);
    }
  }

  /** Ids of buttons without a menu id keep what the registry had, unless a
      menu button of the same id registered. */
  lemma {:induction false} OtherIdsUntouched(m: map<string, Action>, s: seq<Button>, n: nat, id: string, menus: MenuLookup)
    requires n <= |s|
    requires forall i :: 0 <= i < n && Truthy(s[i].menuId) ==> s[i].id != id
    ensures (id in Registered(m, s, n, menus)) == (id in m)
    ensures id in m ==> Registered(m, s, n, menus)[id] == m[id]
    decreases n
  {
    if n > 0 {
      OtherIdsUntouched(m, s, n - 1, id, menus);
    }
  }

  // ---------------------------------------------------------------------
  // Context menu of a menu button (`MyMenuItem.showContextMenu`)
  // ---------------------------------------------------------------------

  /** An entry of a resolved menu: a submenu with its number of children, or an item. */
  datatype MenuEntry = SubmenuEntry(caption: string, childCount: nat) | ItemEntry(caption: string)

  predicate IsNonEmptyEntry(e: MenuEntry) {
    !(e.SubmenuEntry? && e.childCount == 0)
  }

  function Relabel(e: MenuEntry, relabel: string -> string): MenuEntry {
    e.(caption := relabel(e.caption))
  }

  function RelabelAll(s: seq<MenuEntry>, relabel: string -> string): (r: seq<MenuEntry>)
    ensures |r| == |s| && forall i :: 0 <= i < |s| ==> r[i] == Relabel(s[i], relabel)
  {
    seq(|s|, i requires 0 <= i < |s| => Relabel(s[i], relabel))
  }

  /**
    The loop of `showContextMenu`, from the last entry down: a submenu with
    no children is spliced out, every other entry gets its label rewritten
    by `relabel` (`mnemonicMenuLabel`). The result is the non-empty entries
    in their original order, relabelled.
  */
  method RemoveEmptySubmenus(actions: seq<MenuEntry>, relabel: string -> string) returns (r: seq<MenuEntry>)
    ensures r == RelabelAll(Filter(IsNonEmptyEntry, actions), relabel)
  {
    r := actions;
    var i := |actions|;
    while i > 0
      invariant 0 <= i <= |actions|
      invariant r == actions[..i] + RelabelAll(Filter(IsNonEmptyEntry, actions[i..]), relabel)
      decreases i
    {
      i := i - 1;
      var value := r[i];
      ghost var done := RelabelAll(Filter(IsNonEmptyEntry, actions[i + 1..]), relabel);
      assert r[..i] == actions[..i] && value == actions[i] && r[i + 1..] == done by {
        assert r == actions[..i] + [actions[i]] + done;
      }
      RelabelStep(actions, i, relabel);
      if value.SubmenuEntry? && value.childCount == 0 {
        r := r[..i] + r[i + 1..];
      } else {
        r := r[..i] + [Relabel(value, relabel)] + r[i + 1..];
      }
    }
  }

  /** One step of the splice loop: the relabelled non-empty entries from `i`
      on are those from `i + 1` on, behind the `i`-th entry when it is kept. */
  lemma RelabelStep(actions: seq<MenuEntry>, i: nat, relabel: string -> string)
    requires i < |actions|
    ensures RelabelAll(Filter(IsNonEmptyEntry, actions[i..]), relabel) ==
            (if IsNonEmptyEntry(actions[i]) then [Relabel(actions[i], relabel)] else []) +
            RelabelAll(Filter(IsNonEmptyEntry, actions[i + 1..]), relabel)
  {
    assert actions[i..] == [actions[i]] + actions[i + 1..];
    FilterCons(IsNonEmptyEntry, actions[i], actions[i + 1..]);
  }

  // ---------------------------------------------------------------------
  // The part
  // ---------------------------------------------------------------------

  class BannerPart {
    /** `height`. */
    var height: int
    /** `visible`. */
    var visible: bool
    /** `focusedActionIndex`: -1 when no action has focus. */
    var focusedActionIndex: int
    /** The banner item shown, if any. */
    var item: Option<BannerItem>
    /** How many times `onDidChange` has fired. */
    var sizeChanges: nat
    /** The last `setPartHidden` request made to the layout. */
    var partHidden: bool
    /** Ids of the items whose `onClose` ran, in order. */
    var closedItems: seq<string>
    /** The actions in the main toolbar's action bar. */
    var toolbar: seq<Action>
    /** `product.mainToolbarActions`, which `GetActions` sorts in place. */
    var buttons: seq<Button>
    /** `ToolbarActions.actionMenuMap`. */
    var actionMenuMap: map<string, Action>
    /** `MenuId.getMenuIdbyId`, read when a menu button's action is made. */
    const menus: MenuLookup

    constructor (buttons: seq<Button>, menus: MenuLookup)
      ensures height == InitialHeight && visible && focusedActionIndex == -1 && item == None
      ensures sizeChanges == 0 && !partHidden && closedItems == [] && toolbar == []
      ensures this.buttons == buttons && actionMenuMap == map[] && this.menus == menus
    {
      this.menus := menus;
      height := InitialHeight;
      visible := true;
      focusedActionIndex := -1;
      item := None;
      sizeChanges := 0;
      partHidden := false;
      closedItems := [];
      toolbar := [];
      this.buttons := buttons;
      actionMenuMap := map[];
    }

    /** `minimumHeight`: the height while visible, 0 while hidden. */
    function MinimumHeight(): (h: int)
      reads this
      ensures visible ==> h == height
      ensures !visible ==> h == 0
    {
      if visible then height else 0
    }

    /** `maximumHeight`: the same as the minimum; the part never stretches. */
    function MaximumHeight(): (h: int)
      reads this
      ensures h == MinimumHeight()
    {
      if visible then height else 0
    }

    /** `setVisibility`: nothing when unchanged; otherwise flip, drop the
        focused action, tell the layout, and fire a size change. */
    method SetVisibility(v: bool)
      modifies this`visible, this`focusedActionIndex, this`partHidden, this`sizeChanges
      ensures visible == v
      ensures v == old(visible) ==>
                focusedActionIndex == old(focusedActionIndex) && partHidden == old(partHidden) &&
                sizeChanges == old(sizeChanges)
      ensures v != old(visible) ==>
                focusedActionIndex == -1 && partHidden == !v && sizeChanges == old(sizeChanges) + 1
    {
      if v != visible {
        visible := v;
        focusedActionIndex := -1;
        partHidden := !v;
        sizeChanges := sizeChanges + 1;
      }
    }

    /** `focus`: the banner itself takes focus. */
    method Focus()
      modifies this`focusedActionIndex
      ensures focusedActionIndex == -1
    {
      focusedActionIndex := -1;
    }

    method FocusNextAction()
      modifies this`focusedActionIndex
      ensures focusedActionIndex == NextFocusIndex(old(focusedActionIndex), ActionCount(item))
      ensures -1 <= old(focusedActionIndex) <= ActionCount(item) ==>
                0 <= focusedActionIndex <= ActionCount(item)
    {
      focusedActionIndex := NextFocusIndex(focusedActionIndex, ActionCount(item));
    }

    method FocusPreviousAction()
      modifies this`focusedActionIndex
      ensures focusedActionIndex == PreviousFocusIndex(old(focusedActionIndex), ActionCount(item))
      ensures -1 <= old(focusedActionIndex) <= ActionCount(item) ==>
                0 <= focusedActionIndex <= ActionCount(item)
    {
      focusedActionIndex := PreviousFocusIndex(focusedActionIndex, ActionCount(item));
    }

    /** `hide(id)`: hides the part only when `id` is the shown item's. */
    method Hide(id: string)
      modifies this`visible, this`focusedActionIndex, this`partHidden, this`sizeChanges
      ensures !(old(item).Some? && old(item).value.id == id) ==>
                visible == old(visible) && focusedActionIndex == old(focusedActionIndex) &&
                partHidden == old(partHidden) && sizeChanges == old(sizeChanges)
      ensures old(item).Some? && old(item).value.id == id ==>
                !visible &&
                (old(visible) ==> focusedActionIndex == -1 && partHidden && sizeChanges == old(sizeChanges) + 1) &&
                (!old(visible) ==> focusedActionIndex == old(focusedActionIndex) && partHidden == old(partHidden) &&
                                   sizeChanges == old(sizeChanges))
    {
      if item.None? || item.value.id != id {
        return;
      }
      SetVisibility(false);
    }

    /**
      `GetActions`: sort the product's buttons by group (stable, missing
      group as `''`), then walk them: a separator wherever the group differs
      from the previous button's, then the button's action; buttons with a
      menu id register their action under their id.
    */
    method GetActions() returns (actions: seq<Action>)
      modifies this`buttons, this`actionMenuMap
      ensures buttons == SortByGroup(old(buttons))
      ensures actions == ActionsFor(buttons, |buttons|, menus)
      ensures actionMenuMap == Registered(old(actionMenuMap), buttons, |buttons|, menus)
    {
      actions := [];
      if |buttons| == 0 {
        return;
      }
      var sorted := SortByGroup(buttons);
      buttons := sorted;
      var lastGroup := sorted[0].group;
      ghost var registered := actionMenuMap;
      for i := 0 to |sorted|
        invariant buttons == sorted
        invariant actions == ActionsFor(sorted, i, menus)
        invariant lastGroup == (if i == 0 then sorted[0].group else sorted[i - 1].group)
        invariant actionMenuMap == Registered(registered, sorted, i, menus)
      {
        var button := sorted[i];
        var separator: seq<Action> := [];
        SameGroupIsEquality(lastGroup, button.group);
        if lastGroup != button.group {
          separator := [Separator];
          lastGroup := button.group;
        }
        var made := MakeAction(button);
        actions := actions + separator + made;
      }
    }

    /** One button's action: a menu action with the menu its menu id looks
        up, registered under the button's id, when it has a menu id; else a
        command action when it has a command id; else none. */
    method MakeAction(button: Button) returns (made: seq<Action>)
      modifies this`actionMenuMap
      ensures made == ButtonAction(button, menus)
      ensures actionMenuMap == (if Truthy(button.menuId) then old(actionMenuMap)[button.id := made[0]] else old(actionMenuMap))
    {
      made := [];
      if Truthy(button.menuId) {
        var action := MenuAction(button.id, button.caption, menus(button.menuId.value), button.iconClass);
        actionMenuMap := actionMenuMap[button.id := action];
        made := [action];
      } else if Truthy(button.commandId) {
        made := [CommandAction(button.id, button.caption, button.iconClass, button.commandId.value)];
      }
    }

    /** `ToolbarActions.getMenuId`: the menu stored in the action registered
        under `id`; `undefined` when nothing is registered there, or when the
        registered action's menu id named no menu. */
    function GetMenuId(id: string): (r: Option<MenuId>)
      reads this
      ensures r.Some? ==> id in actionMenuMap && actionMenuMap[id].MenuAction? && r == actionMenuMap[id].menu
      ensures id !in actionMenuMap || !actionMenuMap[id].MenuAction? ==> r == None
      ensures id in actionMenuMap && actionMenuMap[id].MenuAction? ==> r == actionMenuMap[id].menu
    {
      if id in actionMenuMap && actionMenuMap[id].MenuAction? then actionMenuMap[id].menu else None
    }

    /** `showToolbar`: height back to the toolbar's, the toolbar rebuilt from
        `GetActions`, and the part made visible. */
    method ShowToolbar()
      modifies this`height, this`toolbar, this`buttons, this`actionMenuMap,
               this`visible, this`focusedActionIndex, this`partHidden, this`sizeChanges
      ensures height == ToolbarHeight && visible
      ensures buttons == SortByGroup(old(buttons))
      ensures toolbar == ActionsFor(buttons, |buttons|, menus)
      ensures actionMenuMap == Registered(old(actionMenuMap), buttons, |buttons|, menus)
      ensures old(visible) ==> focusedActionIndex == old(focusedActionIndex) && sizeChanges == old(sizeChanges)
      ensures !old(visible) ==> focusedActionIndex == -1 && sizeChanges == old(sizeChanges) + 1
      ensures !old(visible) ==> !partHidden
      ensures old(visible) ==> partHidden == old(partHidden)
    {
      height := ToolbarHeight;
      toolbar := GetActions();
      label built:
      SetVisibility(true);
      assert buttons == old@built(buttons) && toolbar == old@built(toolbar) && actionMenuMap == old@built(actionMenuMap);
    }

    /** `createContentArea`: the toolbar is shown, with all that `showToolbar` does. */
    method CreateContentArea()
      modifies this`height, this`toolbar, this`buttons, this`actionMenuMap,
               this`visible, this`focusedActionIndex, this`partHidden, this`sizeChanges
      ensures height == ToolbarHeight && visible
      ensures buttons == SortByGroup(old(buttons)) && toolbar == ActionsFor(buttons, |buttons|, menus)
      ensures actionMenuMap == Registered(old(actionMenuMap), buttons, |buttons|, menus)
      ensures old(visible) ==> focusedActionIndex == old(focusedActionIndex) && sizeChanges == old(sizeChanges) &&
                               partHidden == old(partHidden)
      ensures !old(visible) ==> focusedActionIndex == -1 && sizeChanges == old(sizeChanges) + 1 && !partHidden
    {
      ShowToolbar();
    }

    /**
      `show(item)`. The item already shown is only made visible again. A new
      item rebuilds the toolbar (height 33), becomes the item, and adds the
      message row's 26 to the height, firing a size change.
    */
    method Show(newItem: BannerItem)
      modifies this`height, this`toolbar, this`buttons, this`actionMenuMap, this`item,
               this`visible, this`focusedActionIndex, this`partHidden, this`sizeChanges
      ensures visible
      ensures old(visible) ==> focusedActionIndex == old(focusedActionIndex) && partHidden == old(partHidden)
      ensures !old(visible) ==> focusedActionIndex == -1 && !partHidden
      ensures old(item).Some? && old(item).value.id == newItem.id ==>
                item == old(item) && height == old(height) && toolbar == old(toolbar) &&
                buttons == old(buttons) && actionMenuMap == old(actionMenuMap) &&
                sizeChanges == old(sizeChanges) + (if old(visible) then 0 else 1)
      ensures !(old(item).Some? && old(item).value.id == newItem.id) ==>
                item == Some(newItem) && height == ToolbarHeight + MessageHeight &&
                buttons == SortByGroup(old(buttons)) && toolbar == ActionsFor(buttons, |buttons|, menus) &&
                actionMenuMap == Registered(old(actionMenuMap), buttons, |buttons|, menus) &&
                sizeChanges == old(sizeChanges) + (if old(visible) then 0 else 1) + 1
    {
      if item.Some? && newItem.id == item.value.id {
        SetVisibility(true);
        return;
      }
      ShowToolbar();
      label shown:
      SetVisibility(true);
      assert buttons == old@shown(buttons) && toolbar == old@shown(toolbar) && actionMenuMap == old@shown(actionMenuMap);
      item := Some(newItem);
      height := height + MessageHeight;
      sizeChanges := sizeChanges + 1;
    }

    /** The close action of `closing`: the toolbar is shown again, its
        `onClose` runs when it is a function, a size change fires, and no
        item is shown any more. */
    method Close(closing: BannerItem)
      modifies this`height, this`toolbar, this`buttons, this`actionMenuMap, this`item, this`closedItems,
               this`visible, this`focusedActionIndex, this`partHidden, this`sizeChanges
      ensures item == None && visible && height == ToolbarHeight
      ensures closedItems == old(closedItems) + (if closing.hasOnClose then [closing.id] else [])
      ensures sizeChanges == old(sizeChanges) + (if old(visible) then 0 else 1) + 1
      ensures old(visible) ==> focusedActionIndex == old(focusedActionIndex) && partHidden == old(partHidden)
      ensures !old(visible) ==> focusedActionIndex == -1 && !partHidden
      ensures buttons == SortByGroup(old(buttons)) && toolbar == ActionsFor(buttons, |buttons|, menus)
      ensures actionMenuMap == Registered(old(actionMenuMap), buttons, |buttons|, menus)
    {
      ShowToolbar();
      if closing.hasOnClose {
        closedItems := closedItems + [closing.id];
      }
      sizeChanges := sizeChanges + 1;
      item := None;
    }
  }
}
