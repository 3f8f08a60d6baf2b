/**
 * The frontend `DebtsPage`: the case-insensitive search on the person's name, the split
 * into money lent and money borrowed, and the per-card status button and amount sign.
 */
module DebtsPage {
  import opened Collections
  import opened Text
  import opened DebtModel
  import opened DebtController

  /** `debt.person.toLowerCase().includes(searchTerm.toLowerCase())`. */
  function Matches(term: string): Debt -> bool {
    (d: Debt) => Contains(ToLower(d.person), ToLower(term))
  }

  /** `filteredDebts`: every debt for an empty term, else the debts whose person matches, in order. */
  function FilteredDebts(debts: seq<Debt>, term: string): seq<Debt> {
    if term == "" then debts else Filter(debts, Matches(term))
  }

  function OfDebtKind(kind: string): Debt -> bool {
    (d: Debt) => d.kind == kind
  }

  /** `moneyLent`. */
  function MoneyLent(debts: seq<Debt>, term: string): seq<Debt> {
    Filter(FilteredDebts(debts, term), OfDebtKind("lent"))
  }

  /** `moneyBorrowed`. */
  function MoneyBorrowed(debts: seq<Debt>, term: string): seq<Debt> {
    Filter(FilteredDebts(debts, term), OfDebtKind("borrowed"))
  }

  /** The empty string is contained in every string, so the empty term would keep everything. */
  lemma ContainsEmpty(s: string)
    ensures Contains(s, "")
  {
  }

  /**
   * The search keeps a debt exactly when the term is empty or the lowercased term occurs in
   * the lowercased name; it keeps nothing else and changes no debt.
   */
  lemma FilteredDebtsSpec(debts: seq<Debt>, term: string)
    ensures term == "" ==> FilteredDebts(debts, term) == debts
    ensures forall i :: 0 <= i < |debts| && Contains(ToLower(debts[i].person), ToLower(term))
                        ==> debts[i] in FilteredDebts(debts, term)
    ensures forall k :: 0 <= k < |FilteredDebts(debts, term)| ==>
              FilteredDebts(debts, term)[k] in debts && Contains(ToLower(FilteredDebts(debts, term)[k].person), ToLower(term))
  {
    if term == "" {
      forall k | 0 <= k < |debts| ensures Contains(ToLower(debts[k].person), ToLower(term)) {
        ContainsEmpty(ToLower(debts[k].person));
      }
    } else {
      var r := Filter(debts, Matches(term));
      forall i | 0 <= i < |debts| && Contains(ToLower(debts[i].person), ToLower(term)) ensures debts[i] in r {
        assert Matches(term)(debts[i]);
      }
      forall k | 0 <= k < |r| ensures r[k] in debts && Contains(ToLower(r[k].person), ToLower(term)) {
        assert Matches(term)(r[k]);
      }
    }
  }

  /** The search does not depend on letter case: `"ALI"` finds `"Alice"`. */
  lemma SearchIgnoresCase()
    ensures Contains(ToLower("Alice"), ToLower("ALI"))
  {
    assert ToLower("Alice") == "alice";
    assert ToLower("ALI") == "ali";
    assert "alice"[0..3] == "ali";
    ContainsAt("alice", "ali", 0);
  }

  /**
   * The two columns never share a debt, and when every debt has one of the schema's two
   * types they hold together exactly the searched list.
   */
  lemma LentAndBorrowedPartition(debts: seq<Debt>, term: string)
    ensures forall i, j :: 0 <= i < |MoneyLent(debts, term)| && 0 <= j < |MoneyBorrowed(debts, term)|
                           ==> MoneyLent(debts, term)[i] != MoneyBorrowed(debts, term)[j]
    ensures (forall i :: 0 <= i < |debts| ==> debts[i].kind in DebtTypes) ==>
              multiset(MoneyLent(debts, term)) + multiset(MoneyBorrowed(debts, term)) == multiset(FilteredDebts(debts, term))
  {
    var f := FilteredDebts(debts, term);
    if forall i :: 0 <= i < |debts| ==> debts[i].kind in DebtTypes {
      forall k | 0 <= k < |f| ensures f[k].kind in DebtTypes {
        if term != "" {
          assert f[k] in debts;
        }
      }
      FilterPartition(f, OfDebtKind("lent"), OfDebtKind("borrowed"));
    }
  }

  /** A debt whose type is neither value appears in neither column. */
  lemma OtherKindInNeither(debts: seq<Debt>, term: string, d: Debt)
    requires d.kind !in DebtTypes
    ensures d !in MoneyLent(debts, term) && d !in MoneyBorrowed(debts, term)
  {
  }

  /** The status button's label. */
  function ButtonLabel(status: string): (r: string)
    ensures r == "Mark as Paid" || r == "Mark as Unpaid"
  {
    if status == "pending" then "Mark as Paid" else "Mark as Unpaid"
  }

  /** The label names the status the server's toggle moves the debt to. */
  lemma ButtonMatchesToggle(status: string)
    ensures ButtonLabel(status) == "Mark as Paid" <==> Toggle(status) == "paid"
    ensures ButtonLabel(status) == "Mark as Unpaid" <==> Toggle(status) == "pending"
  {
  }

  /** The sign before the amount: money lent goes out, anything else comes in. */
  function AmountSign(kind: string): (r: string)
    ensures r == "-" <==> kind == "lent"
    ensures r == "-" || r == "+"
  {
    if kind == "lent" then "-" else "+"
  }

  /** Every card of the lent column shows `-`, every card of the borrowed column `+`. */
  lemma ColumnSigns(debts: seq<Debt>, term: string)
    ensures forall k :: 0 <= k < |MoneyLent(debts, term)| ==> AmountSign(MoneyLent(debts, term)[k].kind) == "-"
    ensures forall k :: 0 <= k < |MoneyBorrowed(debts, term)| ==> AmountSign(MoneyBorrowed(debts, term)[k].kind) == "+"
  {
    var l, b := MoneyLent(debts, term), MoneyBorrowed(debts, term);
    forall k | 0 <= k < |l| ensures l[k].kind == "lent" {
      assert OfDebtKind("lent")(l[k]);
    }
    forall k | 0 <= k < |b| ensures b[k].kind == "borrowed" {
      assert OfDebtKind("borrowed")(b[k]);
    }
  }
}
