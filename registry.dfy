/** The mastered-potion registry: the titles and colours of successful brews, in the order they were
    first brewed, with no two titles equal once letter case is ignored. */
module Registry {
  import opened Text

  datatype Mastered = Mastered(title: string, color: string)

  /** Two titles name the same potion when they agree after `toLowerCase()`. */
  predicate SameTitle(a: string, b: string) {
    Lower(a) == Lower(b)
  }

  /** `prev.some(p => p.title.toLowerCase() === title.toLowerCase())`, scanned from the front. */
  function Contains(reg: seq<Mastered>, title: string): (b: bool)
    ensures b <==> exists i :: 0 <= i < |reg| && SameTitle(reg[i].title, title)
  {
    if reg == [] then false
    else if SameTitle(reg[0].title, title) then true
    else
      var b := Contains(reg[1..], title);
      assert forall i :: 1 <= i < |reg| ==> reg[i] == reg[1..][i - 1];
      b
  }

  /** The updater of App.tsx:200-203: a title not yet present, in any letter case, is appended with
      its colour; otherwise the registry is returned unchanged. */
  function Record(reg: seq<Mastered>, title: string, color: string): (r: seq<Mastered>)
    ensures Contains(reg, title) ==> r == reg
    ensures !Contains(reg, title) ==> r == reg + [Mastered(title, color)]
  {
    if Contains(reg, title) then reg else reg + [Mastered(title, color)]
  }

  /** No two entries name the same potion. */
  predicate Distinct(reg: seq<Mastered>) {
    forall i, j :: 0 <= i < j < |reg| ==> !SameTitle(reg[i].title, reg[j].title)
  }

  /** After recording, the title is present, and no entry was removed or altered. */
  lemma RecordRegisters(reg: seq<Mastered>, title: string, color: string)
    ensures Contains(Record(reg, title, color), title)
    ensures |Record(reg, title, color)| >= |reg| && Record(reg, title, color)[..|reg|] == reg
  {
    if !Contains(reg, title) {
      var r := Record(reg, title, color);
      assert SameTitle(r[|reg|].title, title);
    }
  }

  /** Recording keeps the titles distinct. */
  lemma RecordKeepsDistinct(reg: seq<Mastered>, title: string, color: string)
    requires Distinct(reg)
    ensures Distinct(Record(reg, title, color))
  {
    var r := Record(reg, title, color);
    if !Contains(reg, title) {
      forall i, j | 0 <= i < j < |r| ensures !SameTitle(r[i].title, r[j].title) {
        if j == |reg| {
          assert r[i] == reg[i];
        }
      }
    }
  }

  /** A registry grows by at most one entry per brew. */
  lemma RecordGrowsByAtMostOne(reg: seq<Mastered>, title: string, color: string)
    ensures |reg| <= |Record(reg, title, color)| <= |reg| + 1
  {
  }

  /** Brewing a potion whose title differs only in letter case from one just recorded adds nothing:
      two such brews on an empty registry leave exactly one entry, the first. */
  lemma CaseVariantsRegisterOnce(reg: seq<Mastered>, t1: string, c1: string, t2: string, c2: string)
    requires SameTitle(t1, t2)
    ensures Record(Record(reg, t1, c1), t2, c2) == Record(reg, t1, c1)
    ensures Record(Record([], t1, c1), t2, c2) == [Mastered(t1, c1)]
  {
    RecordRegisters(reg, t1, c1);
    var r := Record(reg, t1, c1);
    var i :| 0 <= i < |r| && SameTitle(r[i].title, t1);
    assert SameTitle(r[i].title, t2);
    var s := Record([], t1, c1);
    assert s == [Mastered(t1, c1)];
    assert SameTitle(s[0].title, t2);
  }
}
