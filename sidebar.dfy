/**
 * What the two sidebars (`app/components/AdminSidebar.tsx` and
 * `app/components/AppSidebar.tsx`) both compute: the avatar initials of a
 * name, which the two define alike but for the text shown without a name,
 * and the class of a navigation button.
 */
module Sidebar {
  import opened Base
  import opened Text
  import opened Seqs

  /**
   * `getInitials`: without a name, `fallback`; otherwise the trimmed name is
   * split at single spaces and the first letters of its first and last parts
   * are upper-cased (only the first part's when there is one).
   */
  function Initials(name: Option<string>, fallback: string): (r: string)
    ensures !Truthy(name) ==> r == fallback
    ensures Truthy(name) ==> |r| <= 2
  {
    if !Truthy(name) then fallback
    else
      var parts := Split(Trim(name.value), ' ');
      if |parts| == 1 then UpperFirst(parts[0])
      else UpperFirst(parts[0]) + UpperFirst(parts[|parts| - 1])
  }

  /**
   * The initials of a name, word by word: a trimmed name without a space
   * gives its own first letter; otherwise the first letter of the text
   * before the first space and of the text after the last one.
   */
  lemma InitialsByWords(name: Option<string>, fallback: string)
    requires Truthy(name)
    ensures var t := Trim(name.value);
      (' ' !in t ==> Initials(name, fallback) == UpperFirst(t))
      && (' ' in t ==> Initials(name, fallback) == UpperFirst(BeforeFirst(t, ' ')) + UpperFirst(AfterLast(t, ' ')))
  {
    var t := Trim(name.value);
    var parts := Split(t, ' ');
    assert Initials(name, fallback)
           == if |parts| == 1 then UpperFirst(parts[0]) else UpperFirst(parts[0]) + UpperFirst(parts[|parts| - 1]);
    SplitSingle(t, ' ');
    if ' ' in t {
      BeforeFirstIsFirstPart(t, ' ');
      SplitLast(t, ' ');
    }
  }

  /** A name of white space only is truthy, so it gets no fallback: its initials are empty. */
  lemma BlankNameHasNoInitials(name: Option<string>, fallback: string)
    requires Truthy(name) && forall i :: 0 <= i < |name.value| ==> IsWhiteSpace(name.value[i])
    ensures Initials(name, fallback) == ""
  {
    TrimBlank(name.value);
    SplitSingle("", ' ');
  }

  /** `itemClass`: the active key's button alone carries the active class. */
  function ItemClass<K(==)>(key: K, active: K): (c: string)
    ensures c == "nav-item nav-item-active" <==> key == active
    ensures c == "nav-item" <==> key != active
  {
    if key == active then "nav-item nav-item-active" else "nav-item"
  }

  /** A navigation button: its key, its text and the route it opens. */
  datatype NavItem<K> = NavItem(key: K, caption: string, href: string)

  function Keys<K>(items: seq<NavItem<K>>): (ks: seq<K>)
    ensures |ks| == |items| && forall i :: 0 <= i < |items| ==> ks[i] == items[i].key
  {
    seq(|items|, i requires 0 <= i < |items| => items[i].key)
  }

  function IsActive<K(==)>(active: K): NavItem<K> -> bool
  {
    (item: NavItem<K>) => ItemClass(item.key, active) == "nav-item nav-item-active"
  }

  /**
   * With distinct keys, exactly one button is drawn active when the active
   * key is among them, and none otherwise.
   */
  lemma {:induction false} OneActiveItem<K>(items: seq<NavItem<K>>, active: K)
    requires Distinct(Keys(items))
    ensures Count(items, IsActive(active)) == if active in Keys(items) then 1 else 0
    decreases |items|
  {
    if items != [] {
      var init, last := items[..|items| - 1], items[|items| - 1];
      assert items == init + [last];
      assert Keys(items) == Keys(init) + [last.key];
      OneActiveItem(init, active);
      CountSnoc(init, last, IsActive(active));
      if last.key == active {
        forall j | 0 <= j < |init|
          ensures Keys(init)[j] != active
        {
          assert Keys(items)[j] != Keys(items)[|items| - 1];
        }
      }
    }
  }
}
