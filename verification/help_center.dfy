/** The help center's question catalogue: the case-insensitive search, the
    expand/collapse state and the no-results message
    (frontend/src/pages/help-center-page.tsx). The catalogue's wording is a
    parameter: the model holds for any list of categories. */
module HelpCenter {
  import opened Strings

  datatype Faq = Faq(q: string, a: string)
  datatype Category = Category(title: string, questions: seq<Faq>)

  /** `a` is `b` with some elements deleted, the rest in their order. */
  predicate Subseq<T(==)>(a: seq<T>, b: seq<T>)
    decreases |b|
  {
    |a| == 0
    || (|b| > 0 && ((a[0] == b[0] && Subseq(a[1..], b[1..])) || Subseq(a, b[1..])))
  }

  /** The question or the answer contains the query, ignoring case. */
  predicate Hit(f: Faq, query: string) {
    Includes(Lower(f.q), Lower(query)) || Includes(Lower(f.a), Lower(query))
  }

  /** `category.questions.filter(...)`. */
  function KeepHits(qs: seq<Faq>, query: string): (r: seq<Faq>)
    ensures forall f :: f in r <==> f in qs && Hit(f, query)
    ensures Subseq(r, qs)
  {
    if |qs| == 0 then []
    else
      assert forall f :: f in qs <==> f == qs[0] || f in qs[1..];
      var rest := KeepHits(qs[1..], query);
      if Hit(qs[0], query) then
        assert ([qs[0]] + rest)[1..] == rest;
        [qs[0]] + rest
      else rest
  }

  /** Each category with its questions narrowed to the hits, before the
      empty ones are dropped. */
  function Narrowed(cats: seq<Category>, query: string): (r: seq<Category>)
    ensures |r| == |cats|
  {
    seq(|cats|, i requires 0 <= i < |cats| => cats[i].(questions := KeepHits(cats[i].questions, query)))
  }

  /** `filteredCategories`. */
  function FilterCategories(cats: seq<Category>, query: string): (r: seq<Category>)
    ensures forall c :: c in r ==> |c.questions| > 0 && forall f :: f in c.questions ==> Hit(f, query)
    ensures forall c :: c in r <==> c in Narrowed(cats, query) && |c.questions| > 0
    ensures Subseq(r, Narrowed(cats, query))
    decreases |cats|
  {
    if |cats| == 0 then []
    else
      var n := Narrowed(cats, query);
      var rest := FilterCategories(cats[1..], query);
      assert Narrowed(cats[1..], query) == n[1..];
      assert forall c :: c in n <==> c == n[0] || c in n[1..];
      if |n[0].questions| > 0 then
        assert ([n[0]] + rest)[1..] == rest;
        [n[0]] + rest
      else rest
  }

  /** `searchQuery ? filteredCategories : categories`. */
  function Displayed(cats: seq<Category>, query: string): (r: seq<Category>)
    ensures query == "" ==> r == cats
    ensures query != "" ==> r == FilterCategories(cats, query)
  {
    if query != "" then FilterCategories(cats, query) else cats
  }

  /** The no-results message. */
  predicate NoResults(cats: seq<Category>, query: string) {
    query != "" && |FilterCategories(cats, query)| == 0
  }

  /** The message shows iff there is a query and no question of any
      category contains it, in question or answer. */
  lemma NoResultsIff(cats: seq<Category>, query: string)
    ensures NoResults(cats, query) <==>
      query != "" && forall c, f :: c in cats && f in c.questions ==> !Hit(f, query)
  {
    var n := Narrowed(cats, query);
    if query != "" && |FilterCategories(cats, query)| == 0 {
      forall c, f | c in cats && f in c.questions ensures !Hit(f, query) {
        var i :| 0 <= i < |cats| && cats[i] == c;
        assert n[i] in n;
        assert f !in n[i].questions;
      }
    }
    if query != "" && |FilterCategories(cats, query)| > 0 {
      var c := FilterCategories(cats, query)[0];
      assert c in FilterCategories(cats, query);
      var f := c.questions[0];
      var i :| 0 <= i < |n| && n[i] == c;
      assert cats[i] in cats && f in cats[i].questions && Hit(f, query);
    }
  }

  /** With no category empty, an empty query filters nothing out, so both
      branches of `Displayed` would agree. */
  lemma {:induction false} EmptyQueryKeepsAll(cats: seq<Category>)
    requires forall i :: 0 <= i < |cats| ==> |cats[i].questions| > 0
    ensures FilterCategories(cats, "") == cats
  {
    if |cats| > 0 {
      KeepHitsEmpty(cats[0].questions);
      assert cats[0].(questions := cats[0].questions) == cats[0];
      EmptyQueryKeepsAll(cats[1..]);
      assert cats == [cats[0]] + cats[1..];
    }
  }

  lemma {:induction false} KeepHitsEmpty(qs: seq<Faq>)
    ensures KeepHits(qs, "") == qs
  {
    if |qs| > 0 {
      IncludesEmpty(Lower(qs[0].q));
      assert Lower("") == "";
      KeepHitsEmpty(qs[1..]);
      assert qs == [qs[0]] + qs[1..];
    }
  }

  /** Whether a key is expanded: a key never toggled reads as collapsed. */
  predicate Expanded<K(!new)>(m: map<K, bool>, k: K) {
    k in m && m[k]
  }

  /** `toggleItem(key)`: `{...prev, [key]: !prev[key]}`. */
  function Toggle<K(!new)>(m: map<K, bool>, k: K): (r: map<K, bool>)
    ensures Expanded(r, k) == !Expanded(m, k)
    ensures forall j :: j != k ==> (j in r <==> j in m) && (j in m ==> r[j] == m[j])
  {
    m[k := !Expanded(m, k)]
  }

  /** Toggling the same key twice restores what every key shows. */
  lemma ToggleTwice<K(!new)>(m: map<K, bool>, k: K, j: K)
    ensures Expanded(Toggle(Toggle(m, k), k), j) == Expanded(m, j)
  {
  }

  /** The key the page gives the `item`-th question of the `cat`-th
      displayed category: `${categoryIndex}-${itemIndex}`, a pair of
      positions. */
  datatype Slot = Slot(cat: nat, item: nat)

  /** Whether the question at a position of the displayed list shows its
      answer, as written: the state is looked up by position. */
  predicate ShownOpenAsWritten(cats: seq<Category>, query: string, m: map<Slot, bool>, ci: nat, ii: nat)
    requires ci < |Displayed(cats, query)| && ii < |Displayed(cats, query)[ci].questions|
  {
    Expanded(m, Slot(ci, ii))
  }

  /** A reader who opened the first question and then searches for the
      second sees the second one already open, though it was never
      clicked: the open state stays with the position, not the question. */
  lemma AsWrittenOpensUnclicked()
    ensures var cats := [Category("Tickets", [Faq("a", "x"), Faq("b", "y")])];
      var m := Toggle(map[], Slot(0, 0));
      Displayed(cats, "")[0].questions[0] == Faq("a", "x")
      && |Displayed(cats, "b")| == 1 && Displayed(cats, "b")[0].questions == [Faq("b", "y")]
      && ShownOpenAsWritten(cats, "b", m, 0, 0)
  {
    var cats := [Category("Tickets", [Faq("a", "x"), Faq("b", "y")])];
    var n := Narrowed(cats, "b");
    assert Lower("b") == "b" && Lower("a") == "a" && Lower("x") == "x" && Lower("y") == "y";
    assert !OccursAt("a", "b", 0) by { assert "a"[0..1][0] != "b"[0]; }
    assert !OccursAt("x", "b", 0) by { assert "x"[0..1][0] != "b"[0]; }
    assert !Includes("a", "b") && !Includes("x", "b");
    assert Includes("b", "b") by { assert OccursAt("b", "b", 0); }
    assert KeepHits([Faq("b", "y")], "b") == [Faq("b", "y")];
    assert KeepHits(cats[0].questions, "b") == [Faq("b", "y")];
    assert n[0] == Category("Tickets", [Faq("b", "y")]);
    assert FilterCategories(cats[1..], "b") == [];
  }

  /** The key the open state should follow: the question itself, within its
      category. */
  datatype QuestionKey = QuestionKey(title: string, q: string)

  function KeyOf(c: Category, f: Faq): QuestionKey {
    QuestionKey(c.title, f.q)
  }

  /** Whether a displayed question shows its answer, keyed by question. */
  predicate ShownOpen(m: map<QuestionKey, bool>, c: Category, f: Faq) {
    Expanded(m, KeyOf(c, f))
  }

  /** Keyed by question, whatever the query, every displayed question shows
      its answer exactly as it does in the full catalogue: it is a question
      of a catalogue category with the same key. */
  lemma OpenStateFollowsQuestion(cats: seq<Category>, query: string, m: map<QuestionKey, bool>, c: Category, f: Faq)
    requires c in Displayed(cats, query) && f in c.questions
    ensures exists d :: d in cats && f in d.questions && KeyOf(d, f) == KeyOf(c, f)
    ensures forall d :: KeyOf(d, f) == KeyOf(c, f) ==> ShownOpen(m, d, f) == ShownOpen(m, c, f)
  {
    if query == "" {
      assert c in cats;
    } else {
      var i := FilteredFrom(cats, query, c);
      assert cats[i] in cats && f in cats[i].questions && KeyOf(cats[i], f) == KeyOf(c, f);
    }
  }

  /** No two questions of the catalogue share a key: within a category
      the question texts are distinct, and the category titles too. */
  predicate KeysUnique(cats: seq<Category>) {
    forall d, e, f, g ::
      d in cats && e in cats && f in d.questions && g in e.questions && KeyOf(d, f) == KeyOf(e, g)
      ==> f == g
  }

  /** Keyed by question, a click under one query and a look under any
      other: the clicked question flips, and every other question shown
      keeps the state it had (when no two catalogue questions share a key,
      "the clicked question" is the same question in the same category). */
  lemma ClickFollowsQuestion(cats: seq<Category>, q1: string, q2: string, m: map<QuestionKey, bool>,
                             c1: Category, f1: Faq, c2: Category, f2: Faq)
    requires c1 in Displayed(cats, q1) && f1 in c1.questions
    requires c2 in Displayed(cats, q2) && f2 in c2.questions
    ensures var m' := Toggle(m, KeyOf(c1, f1));
      ShownOpen(m', c2, f2) != ShownOpen(m, c2, f2) <==> KeyOf(c2, f2) == KeyOf(c1, f1)
    ensures KeysUnique(cats) ==>
      var m' := Toggle(m, KeyOf(c1, f1));
      ShownOpen(m', c2, f2) != ShownOpen(m, c2, f2) <==> f2 == f1 && c2.title == c1.title
  {
    OpenStateFollowsQuestion(cats, q1, m, c1, f1);
    OpenStateFollowsQuestion(cats, q2, m, c2, f2);
    var d1 :| d1 in cats && f1 in d1.questions && KeyOf(d1, f1) == KeyOf(c1, f1);
    var d2 :| d2 in cats && f2 in d2.questions && KeyOf(d2, f2) == KeyOf(c2, f2);
    if KeysUnique(cats) && KeyOf(c2, f2) == KeyOf(c1, f1) {
      assert f2 == f1;
    }
  }

  /** A filtered category is a catalogue category with its questions
      narrowed. */
  lemma FilteredFrom(cats: seq<Category>, query: string, c: Category) returns (i: nat)
    requires c in FilterCategories(cats, query)
    ensures i < |cats| && c.title == cats[i].title && forall f :: f in c.questions ==> f in cats[i].questions
  {
    var n := Narrowed(cats, query);
    assert c in n;
    i :| 0 <= i < |n| && n[i] == c;
  }
}
