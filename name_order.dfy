/**
 * The name orderings the catalogue relies on: `std::string`'s `operator<`
 * (lexicographic over characters), and a `std::set` whose comparator looks
 * only at a record's name, modelled as a sequence strictly sorted by name.
 */
module NameOrder {

  /** `a < b` on `std::string`: lexicographic; a proper prefix is smaller. */
  predicate Less(a: string, b: string)
    decreases |a|
  {
    if |a| == 0 then |b| > 0
    else if |b| == 0 then false
    else if a[0] != b[0] then a[0] < b[0]
    else Less(a[1..], b[1..])
  }

  lemma {:induction false} LessIrreflexive(a: string)
    ensures !Less(a, a)
    decreases |a|
  {
    if |a| > 0 {
      LessIrreflexive(a[1..]);
    }
  }

  lemma {:induction false} LessTransitive(a: string, b: string, c: string)
    requires Less(a, b) && Less(b, c)
    ensures Less(a, c)
    decreases |a|
  {
    if |a| > 0 && |b| > 0 && |c| > 0 && a[0] == b[0] && b[0] == c[0] {
      LessTransitive(a[1..], b[1..], c[1..]);
    }
  }

  /** Two names that are not ordered either way are equal. */
  lemma {:induction false} LessTotal(a: string, b: string)
    requires a != b
    ensures Less(a, b) || Less(b, a)
    decreases |a|
  {
    if |a| > 0 && |b| > 0 && a[0] == b[0] {
      LessTotal(a[1..], b[1..]);
    }
  }

  lemma LessAsymmetric(a: string, b: string)
    requires Less(a, b)
    ensures !Less(b, a)
  {
    if Less(b, a) {
      LessTransitive(a, b, a);
      LessIrreflexive(a);
    }
  }

  /** An element of a set ordered by name: the name the comparator reads and the record's handle. */
  datatype Named = Named(name: string, id: nat)

  /** A `std::set<const T*, Comparator>`: strictly increasing names, so at most one element per name. */
  ghost predicate SortedByName(s: seq<Named>)
  {
    forall i, j :: 0 <= i < j < |s| ==> Less(s[i].name, s[j].name)
  }

  ghost predicate HasName(s: seq<Named>, name: string)
  {
    exists i :: 0 <= i < |s| && s[i].name == name
  }

  /**
   * `std::set::insert`: an element whose name is already present is not
   * inserted (the comparator calls it equivalent); otherwise it is placed in order.
   */
  function Insert(s: seq<Named>, x: Named): (r: seq<Named>)
    requires SortedByName(s)
    ensures SortedByName(r)
    ensures forall e :: e in r ==> e in s || e == x
    decreases |s|
  {
    if |s| == 0 then [x]
    else if Less(x.name, s[0].name) then
      assert forall i :: 0 <= i < |s| ==> Less(x.name, s[i].name) by {
        forall i | 0 < i < |s| ensures Less(x.name, s[i].name) {
          LessTransitive(x.name, s[0].name, s[i].name);
        }
      }
      [x] + s
    else if x.name == s[0].name then s
    else
      LessTotal(x.name, s[0].name);
      var rest := Insert(s[1..], x);
      assert forall e :: e in rest ==> Less(s[0].name, e.name);
      [s[0]] + rest
  }

  /** A name other than the head's is present exactly when it is present in the tail. */
  lemma HasNameTail(s: seq<Named>, name: string)
    requires |s| > 0 && s[0].name != name
    ensures HasName(s, name) <==> HasName(s[1..], name)
  {
    if HasName(s, name) {
      var i :| 0 <= i < |s| && s[i].name == name;
      assert s[1..][i - 1].name == name;
    }
    if HasName(s[1..], name) {
      var i :| 0 <= i < |s| - 1 && s[1..][i].name == name;
      assert s[i + 1].name == name;
    }
  }

  /** Inserting an element whose name is present changes nothing. */
  lemma {:induction false} InsertPresent(s: seq<Named>, x: Named)
    requires SortedByName(s)
    requires HasName(s, x.name)
    ensures Insert(s, x) == s
    decreases |s|
  {
    if Less(x.name, s[0].name) {
      var i :| 0 <= i < |s| && s[i].name == x.name;
      if i > 0 {
        LessTransitive(x.name, s[0].name, s[i].name);
      }
      LessIrreflexive(x.name);
      assert false;
    } else if x.name != s[0].name {
      HasNameTail(s, x.name);
      InsertPresent(s[1..], x);
      assert s == [s[0]] + s[1..];
    }
  }

  /** Inserting an element whose name is absent adds exactly that element. */
  lemma {:induction false} InsertAbsent(s: seq<Named>, x: Named)
    requires SortedByName(s)
    requires !HasName(s, x.name)
    ensures forall e :: e in Insert(s, x) <==> e in s || e == x
    ensures |Insert(s, x)| == |s| + 1
    decreases |s|
  {
    if |s| > 0 && !Less(x.name, s[0].name) {
      assert x.name != s[0].name;
      HasNameTail(s, x.name);
      InsertAbsent(s[1..], x);
      assert s == [s[0]] + s[1..];
    }
  }

  /**
   * What `insert` leaves in the set: nothing new when the name is present,
   * otherwise exactly the old elements and the new one.
   */
  lemma InsertMembers(s: seq<Named>, x: Named)
    requires SortedByName(s)
    ensures HasName(s, x.name) ==> Insert(s, x) == s
    ensures !HasName(s, x.name) ==> forall e :: e in Insert(s, x) <==> e in s || e == x
    ensures !HasName(s, x.name) ==> |Insert(s, x)| == |s| + 1
  {
    if HasName(s, x.name) {
      InsertPresent(s, x);
    } else {
      InsertAbsent(s, x);
    }
  }

  /** After an insertion the set holds the inserted name, whether it was new or already there. */
  lemma InsertHasName(s: seq<Named>, x: Named)
    requires SortedByName(s)
    ensures HasName(Insert(s, x), x.name)
  {
    var r := Insert(s, x);
    InsertMembers(s, x);
    if !HasName(s, x.name) {
      assert x in r;
      var i :| 0 <= i < |r| && r[i] == x;
    }
  }

  /** Inserting never loses a name already present. */
  lemma InsertKeepsNames(s: seq<Named>, x: Named, name: string)
    requires SortedByName(s)
    requires HasName(s, name)
    ensures HasName(Insert(s, x), name)
  {
    InsertMembers(s, x);
    if !HasName(s, x.name) {
      var k :| 0 <= k < |s| && s[k].name == name;
      var r := Insert(s, x);
      assert s[k] in r;
      var m :| 0 <= m < |r| && r[m] == s[k];
    }
  }

  /** A name-sorted sequence holds each element once and each name once. */
  lemma SortedNamesDistinct(s: seq<Named>, i: int, j: int)
    requires SortedByName(s)
    requires 0 <= i < |s| && 0 <= j < |s| && i != j
    ensures s[i].name != s[j].name
  {
    if i < j {
      if s[i].name == s[j].name { LessIrreflexive(s[i].name); }
    } else {
      if s[i].name == s[j].name { LessIrreflexive(s[j].name); }
    }
  }
}
