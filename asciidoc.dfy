/*
 * The AsciiDoc output document (asciiDoc/asciidoc.go): its tables, the
 * initial entity table `New` sets up, and `Create`, which stores the text of
 * an included file under a fresh or matching `.adoc` name.
 */
module AsciiDoc {
  import opened Strings
  import opened XmlChunk

  /** The file name `Create` probes at step `count`: `title.adoc` first, then
      `title-1.adoc`, `title-2.adoc`, ... */
  function NameOf(title: string, count: nat): string
  {
    if count == 0 then title + ".adoc" else title + "-" + Itoa(count) + ".adoc"
  }

  /** Step `k` is where `Create` stops for `content`: the name there is free or
      already holds `content`, and every earlier name holds other text. */
  predicate IsSlot(data: map<string, string>, title: string, content: string, k: nat)
  {
    !Taken(data, NameOf(title, k), content)
    && forall j :: 0 <= j < k ==> Taken(data, NameOf(title, j), content)
  }

  /** The name is in use for text other than `content`. */
  predicate Taken(data: map<string, string>, name: string, content: string)
  {
    name in data && data[name] != content
  }

  /** The names probed before step `count`. */
  ghost function Probed(title: string, count: nat): set<string>
  {
    if count == 0 then {} else Probed(title, count - 1) + {NameOf(title, count - 1)}
  }

  class Doc {
    var keywords: set<string>
    var entities: map<string, string>
    var data: map<string, string>
    var resources: map<string, string>
    var metadata: seq<Chunk>

    /** A document with the two predefined (empty) entities and nothing else. */
    constructor ()
      ensures keywords == {} && entities == map["nbsp" := "", "blank" := ""]
      ensures data == map[] && resources == map[] && metadata == []
    {
      keywords := {};
      var e: map<string, string> := map[];
      e := e["nbsp" := ""];
      e := e["blank" := ""];
      entities := e;
      data := map[];
      resources := map[];
      metadata := [];
    }

    /** Stores `content` under the first probed name that is free or already
        holds it, and returns that name. */
    method Create(title: string, content: string) returns (name: string, ghost k: nat)
      modifies this
      ensures IsSlot(old(data), title, content, k) && name == NameOf(title, k)
      ensures data == old(data)[name := content]
      ensures keywords == old(keywords) && entities == old(entities)
      ensures resources == old(resources) && metadata == old(metadata)
    {
      var count := 0;
      while true
        invariant AllTaken(data, Probed(title, count), content) && count <= |data.Keys|
        invariant unchanged(this)
        decreases |data.Keys| - count
      {
        var n := NameOf(title, count);
        if n in data {
          if data[n] == content {
            SlotFound(data, title, content, count);
            return n, count;
          }
          ProbedStep(data, title, content, count);
          count := count + 1;
        } else {
          break;
        }
      }
      SlotFound(data, title, content, count);
      name := NameOf(title, count);
      data := data[name := content];
      k := count;
    }
  }

  /** Every name in `names` is taken by text other than `content`. */
  predicate AllTaken(data: map<string, string>, names: set<string>, content: string)
  {
    forall x :: x in names ==> Taken(data, x, content)
  }

  /** Where the probing stops is the slot. */
  lemma SlotFound(data: map<string, string>, title: string, content: string, count: nat)
    requires AllTaken(data, Probed(title, count), content)
    requires !Taken(data, NameOf(title, count), content)
    ensures IsSlot(data, title, content, count)
  {
    ProbedCard(title, count);
  }

  /** Probing one more taken name keeps every probed name taken, and there
      are at least as many names in use as names probed. */
  lemma ProbedStep(data: map<string, string>, title: string, content: string, count: nat)
    requires AllTaken(data, Probed(title, count), content)
    requires Taken(data, NameOf(title, count), content)
    ensures AllTaken(data, Probed(title, count + 1), content) && count + 1 <= |data.Keys|
  {
    ProbedCard(title, count + 1);
    SubsetCard(Probed(title, count + 1), data.Keys);
  }

  /** Different steps probe different names. */
  lemma NameOfInjective(title: string, j: nat, k: nat)
    ensures NameOf(title, j) == NameOf(title, k) <==> j == k
  {
    if j != 0 && k != 0 {
      var nj, nk := title + "-" + Itoa(j) + ".adoc", title + "-" + Itoa(k) + ".adoc";
      assert Itoa(j) == nj[|title| + 1..|nj| - 5];
      assert Itoa(k) == nk[|title| + 1..|nk| - 5];
      if nj == nk {
        ItoaInjective(j, k);
      }
    } else if j != k {
      assert |NameOf(title, j)| != |NameOf(title, k)|;
    }
  }

  /** The probed names are `count` distinct names. */
  lemma {:induction false} ProbedCard(title: string, count: nat)
    ensures |Probed(title, count)| == count
    ensures forall j: nat :: j < count <==> NameOf(title, j) in Probed(title, count)
  {
    if count > 0 {
      ProbedCard(title, count - 1);
      var n := NameOf(title, count - 1);
      forall j: nat | NameOf(title, j) == n ensures j == count - 1 {
        NameOfInjective(title, j, count - 1);
      }
    }
  }

  /** A subset is no larger than its superset. */
  lemma {:induction false} SubsetCard<T>(a: set<T>, b: set<T>)
    requires a <= b
    ensures |a| <= |b|
    decreases |a|
  {
    if a != {} {
      var x :| x in a;
      SubsetCard(a - {x}, b - {x});
    }
  }

  /** `Create` stops at one step only: the smallest one whose name is free or
      already holds the content. */
  lemma SlotUnique(data: map<string, string>, title: string, content: string, j: nat, k: nat)
    requires IsSlot(data, title, content, j) && IsSlot(data, title, content, k)
    ensures j == k
  {
  }

  /** When `title.adoc` is free, `Create` uses it. */
  lemma FreeTitleUsed(data: map<string, string>, title: string, content: string)
    requires title + ".adoc" !in data
    ensures IsSlot(data, title, content, 0)
  {
  }

  /** Storing at the slot keeps every existing entry and adds at most one
      key. */
  lemma CreateKeepsEntries(data: map<string, string>, title: string, content: string, k: nat)
    requires IsSlot(data, title, content, k)
    ensures var data' := data[NameOf(title, k) := content];
      && data'.Keys == data.Keys + {NameOf(title, k)}
      && forall n :: n in data ==> data'[n] == data[n]
  {
  }

  /** A second `Create` with the same arguments stops at the same step, and
      storing there changes nothing. */
  lemma CreateTwice(data: map<string, string>, title: string, content: string, k: nat)
    requires IsSlot(data, title, content, k)
    ensures var data' := data[NameOf(title, k) := content];
      && IsSlot(data', title, content, k)
      && data'[NameOf(title, k) := content] == data'
  {
    var data' := data[NameOf(title, k) := content];
    forall j | 0 <= j < k
      ensures Taken(data', NameOf(title, j), content)
    {
      if NameOf(title, j) == NameOf(title, k) {
        NameOfInjective(title, j, k);
      }
    }
  }
}
