/**
 The action registry (`ACTIONS`) and the menu built from it
 (`show_menu`): entries are listed in ascending order of the integer
 value of their keys, followed by the fixed exit entry.
 */
module Registry {
  import opened Text
  import opened Host

  /** What an entry does when chosen. The actions that only run constant
      commands are described by those commands. */
  datatype Handler =
    | SshPortChange
    | FirewallRule
    | TimezoneChange
    | Ipv6Tweak
    | Fixed(cmds: seq<string>)

  datatype Entry = Entry(key: string, title: string, handler: Handler)

  /** The registry in its declaration order. */
  const Actions: seq<Entry> := [
    Entry("1", "Change SSH port", SshPortChange),
    Entry("2", "Update and clean the system",
          Fixed(["apt update && apt upgrade -y && apt autoremove -y && apt clean"])),
    Entry("3", "Install and enable UFW", Fixed(["apt install ufw -y && ufw enable"])),
    Entry("4", "Manage firewall ports", FirewallRule),
    Entry("5", "Clear system logs and cache",
          Fixed(["journalctl --vacuum-time=3d || true",
                 "rm -rf /var/log/*.log /var/cache/apt/archives/* || true"])),
    Entry("6", "View or change the time zone", TimezoneChange),
    Entry("7", "Install Nginx",
          Fixed(["apt install nginx -y && systemctl enable nginx && systemctl start nginx"])),
    Entry("8", "Uninstall Nginx", Fixed(["systemctl stop nginx || true && apt remove nginx -y"])),
    Entry("9", "Install nftables",
          Fixed(["apt install nftables -y && systemctl enable nftables && systemctl start nftables"])),
    Entry("10", "Uninstall nftables",
          Fixed(["systemctl stop nftables || true && apt remove nftables -y"])),
    Entry("11", "Prefer IPv6 connections automatically", Ipv6Tweak),
    Entry("12", "Change the current user's password", Fixed(["passwd"]))
  ]

  const ExitItem: MenuItem := MenuItem("0", "Exit")

  /** Every key is a digit string, so `int(key)` is defined. */
  predicate Numeric(reg: seq<Entry>) {
    forall i :: 0 <= i < |reg| ==> IsDigits(reg[i].key)
  }

  function KeyValue(e: Entry): nat
    requires IsDigits(e.key)
  {
    DecimalValue(e.key)
  }

  /** Ascending by the integer value of the key. */
  predicate SortedByKey(s: seq<Entry>) {
    Numeric(s) && forall i, j :: 0 <= i < j < |s| ==> KeyValue(s[i]) <= KeyValue(s[j])
  }

  /** No key in `s` is below `lo`. */
  predicate AllAtLeast(s: seq<Entry>, lo: nat) {
    Numeric(s) && forall i :: 0 <= i < |s| ==> lo <= KeyValue(s[i])
  }

  /** Puts `e` in front of the first entry whose key is not smaller. */
  function Insert(e: Entry, s: seq<Entry>): seq<Entry>
    requires IsDigits(e.key) && Numeric(s)
    decreases |s|
  {
    if s == [] then [e]
    else if KeyValue(e) <= KeyValue(s[0]) then [e] + s
    else [s[0]] + Insert(e, s[1..])
  }

  /** Inserting adds exactly `e`. */
  lemma {:induction false} InsertAdds(e: Entry, s: seq<Entry>)
    requires IsDigits(e.key) && Numeric(s)
    ensures multiset(Insert(e, s)) == multiset(s) + multiset{e}
    decreases |s|
  {
    if s != [] && KeyValue(e) > KeyValue(s[0]) {
      assert Numeric(s[1..]);
      InsertAdds(e, s[1..]);
      assert s == [s[0]] + s[1..];
    }
  }

  /** Inserting keeps every lower bound both `e` and `s` respect. */
  lemma {:induction false} InsertBound(e: Entry, s: seq<Entry>, lo: nat)
    requires IsDigits(e.key) && AllAtLeast(s, lo) && lo <= KeyValue(e)
    ensures AllAtLeast(Insert(e, s), lo)
    decreases |s|
  {
    if s != [] && KeyValue(e) > KeyValue(s[0]) {
      assert AllAtLeast(s[1..], lo);
      InsertBound(e, s[1..], lo);
      var r := Insert(e, s);
      forall i | 0 <= i < |r|
        ensures IsDigits(r[i].key) && lo <= KeyValue(r[i])
      {
        if i > 0 {
          assert r[i] == Insert(e, s[1..])[i - 1];
        }
      }
    }
  }

  /** Inserting into a sorted sequence keeps it sorted. */
  lemma {:induction false} InsertSorted(e: Entry, s: seq<Entry>)
    requires IsDigits(e.key) && SortedByKey(s)
    ensures SortedByKey(Insert(e, s))
    decreases |s|
  {
    var r := Insert(e, s);
    InsertBound(e, s, 0);
    if s == [] {
    } else if KeyValue(e) <= KeyValue(s[0]) {
      forall i, j | 0 <= i < j < |r|
        ensures KeyValue(r[i]) <= KeyValue(r[j])
      {
        if i > 0 {
          assert r[i] == s[i - 1] && r[j] == s[j - 1];
        } else {
          assert KeyValue(s[0]) <= KeyValue(s[j - 1]);
        }
      }
    } else {
      var rest := Insert(e, s[1..]);
      InsertSorted(e, s[1..]);
      InsertBound(e, s[1..], KeyValue(s[0]));
      assert AllAtLeast(s[1..], KeyValue(s[0]));
      forall i, j | 0 <= i < j < |r|
        ensures KeyValue(r[i]) <= KeyValue(r[j])
      {
        assert r[j] == rest[j - 1];
        if i > 0 {
          assert r[i] == rest[i - 1];
        }
      }
    }
  }

  /** `sorted(ACTIONS.items(), key=lambda x: int(x[0]))`. */
  function SortByKey(reg: seq<Entry>): (r: seq<Entry>)
    requires Numeric(reg)
    ensures SortedByKey(r)
    decreases |reg|
  {
    if reg == [] then []
    else
      NumericTail(reg);
      var rest := SortByKey(reg[1..]);
      InsertSorted(reg[0], rest);
      Insert(reg[0], rest)
  }

  lemma NumericTail(reg: seq<Entry>)
    requires Numeric(reg) && reg != []
    ensures Numeric(reg[1..])
  {
    forall i | 0 <= i < |reg| - 1
      ensures IsDigits(reg[1..][i].key)
    {
      assert reg[1..][i] == reg[i + 1];
    }
  }

  /** Sorting neither loses nor duplicates an entry. */
  lemma {:induction false} SortPermutes(reg: seq<Entry>)
    requires Numeric(reg)
    ensures multiset(SortByKey(reg)) == multiset(reg)
    decreases |reg|
  {
    if reg != [] {
      NumericTail(reg);
      SortPermutes(reg[1..]);
      InsertAdds(reg[0], SortByKey(reg[1..]));
      assert reg == [reg[0]] + reg[1..];
    }
  }

  function ItemOf(e: Entry): MenuItem {
    MenuItem(e.key, e.title)
  }

  /** The menu `show_menu` prints: the sorted entries, then exit. */
  function ShowMenu(reg: seq<Entry>): (items: seq<MenuItem>)
    requires Numeric(reg)
  {
    var sorted := SortByKey(reg);
    seq(|sorted|, i requires 0 <= i < |sorted| => ItemOf(sorted[i])) + [ExitItem]
  }

  /** The menu shows every entry exactly once, in ascending numeric key
      order, and ends with the exit entry. */
  lemma MenuOrder(reg: seq<Entry>)
    requires Numeric(reg)
    ensures var items := ShowMenu(reg);
      var sorted := SortByKey(reg);
      && |items| == |reg| + 1
      && items[|reg|] == ExitItem
      && multiset(sorted) == multiset(reg)
      && (forall i :: 0 <= i < |reg| ==> items[i] == ItemOf(sorted[i]))
      && (forall i, j :: 0 <= i < j < |reg| ==> KeyValue(sorted[i]) <= KeyValue(sorted[j]))
  {
    var sorted := SortByKey(reg);
    SortPermutes(reg);
    assert |sorted| == |multiset(sorted)| == |multiset(reg)| == |reg|;
  }

  function MenuKeys(items: seq<MenuItem>): seq<string> {
    seq(|items|, i requires 0 <= i < |items| => items[i].key)
  }

  /** For the tool's own registry: 10, 11 and 12 come after 9 (not after 1
      as a string sort would put them), and exit comes last. */
  lemma ActionsMenu()
    ensures Numeric(Actions)
    ensures MenuKeys(ShowMenu(Actions))
              == ["1", "2", "3", "4", "5", "6", "7", "8", "9", "10", "11", "12"] + ["0"]
  {
    ActionsSorted();
    ActionsKeys();
    MenuOfSorted(Actions);
  }

  lemma ActionsKeys()
    ensures KeysOf(Actions) == ["1", "2", "3", "4", "5", "6", "7", "8", "9", "10", "11", "12"]
  {
  }

  function KeysOf(reg: seq<Entry>): seq<string> {
    seq(|reg|, i requires 0 <= i < |reg| => reg[i].key)
  }

  /** A registry already in key order is listed in declaration order. */
  lemma MenuOfSorted(reg: seq<Entry>)
    requires SortedByKey(reg)
    ensures MenuKeys(ShowMenu(reg)) == KeysOf(reg) + [ExitItem.key]
  {
    SortKeepsSorted(reg);
  }

  /** The i-th declared key is the number i + 1. */
  lemma ActionsValues()
    ensures Numeric(Actions)
    ensures forall i :: 0 <= i < |Actions| ==> KeyValue(Actions[i]) == i + 1
  {
    var keys := ["1", "2", "3", "4", "5", "6", "7", "8", "9", "10", "11", "12"];
    assert forall i :: 0 <= i < |Actions| ==> Actions[i].key == keys[i];
    forall i | 0 <= i < |keys|
      ensures IsDigits(keys[i]) && DecimalValue(keys[i]) == i + 1
    {
      var k := keys[i];
      if i >= 9 {
        assert k[..1] == "1";
      }
    }
  }

  lemma ActionsNumeric()
    ensures Numeric(Actions)
  {
    ActionsValues();
  }

  /** The registry is declared in ascending key order. */
  lemma ActionsSorted()
    ensures SortedByKey(Actions)
    ensures forall i :: 0 <= i < |Actions| ==> KeyValue(Actions[i]) == i + 1
  {
    ActionsValues();
    ChainSorted(Actions);
  }

  /** Comparing neighbours is enough for sortedness. */
  lemma {:induction false} ChainSorted(s: seq<Entry>)
    requires Numeric(s)
    requires forall i :: 0 <= i < |s| - 1 ==> KeyValue(s[i]) <= KeyValue(s[i + 1])
    ensures SortedByKey(s)
    decreases |s|
  {
    if |s| > 1 {
      ChainSorted(s[1..]);
      forall i, j | 0 <= i < j < |s|
        ensures KeyValue(s[i]) <= KeyValue(s[j])
      {
        if i == 0 && j > 1 {
          assert KeyValue(s[1..][0]) <= KeyValue(s[1..][j - 1]);
        } else if i > 0 {
          assert KeyValue(s[1..][i - 1]) <= KeyValue(s[1..][j - 1]);
        }
      }
    }
  }

  /** A registry already in key order is shown in its declaration order. */
  lemma {:induction false} SortKeepsSorted(reg: seq<Entry>)
    requires SortedByKey(reg)
    ensures SortByKey(reg) == reg
    decreases |reg|
  {
    if reg != [] {
      SortKeepsSorted(reg[1..]);
      assert reg == [reg[0]] + reg[1..];
    }
  }

  /** `ACTIONS.get(key)`: the entry with exactly this key. */
  function Lookup(reg: seq<Entry>, key: string): (r: Option<Entry>)
    ensures r.None? <==> forall i :: 0 <= i < |reg| ==> reg[i].key != key
    ensures r.Some? ==> r.value in reg && r.value.key == key
    decreases |reg|
  {
    if reg == [] then None
    else if reg[0].key == key then Some(reg[0])
    else Lookup(reg[1..], key)
  }
}
