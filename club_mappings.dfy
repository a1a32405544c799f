/**
 * The club-name mapping updater of src/setup/update-mappings-club-names.js:
 * abbreviations made from the initials of a club's name, kept unique by a
 * numeric suffix, and a batch update of the club-name map. Scraping the club
 * names from the ladder pages and the file I/O are not part of this model.
 */
module ClubMappings {
  import opened Wrappers
  import opened Strings
  import opened Lists

  // ============================================================= abbreviations

  /**
   * The name without "Hockey Club" and "HC" (in any case, anywhere), with
   * white space reduced to single inner spaces.
   */
  function CleanName(clubName: string): string {
    Normalize(ReplaceAllWith(ReplaceAllWith(clubName, "Hockey Club", "", true), "HC", "", true))
  }

  /** `word.charAt(0).toUpperCase()`. */
  function Initial(word: string): (r: string)
    ensures |r| <= 1
  {
    if word == [] then [] else [Upper(word[0])]
  }

  /** The initials of the words, joined with nothing between them. */
  function Initials(words: seq<string>): (r: string)
    ensures |r| <= |words|
  {
    if words == [] then [] else Initial(words[0]) + Initials(words[1..])
  }

  /**
   * The abbreviation before the uniqueness suffix: the initials of the words
   * of the cleaned name, or its first three characters upper-cased when that
   * gives fewer than two letters. The cleaned name has only single spaces
   * between words, so splitting at white-space runs is splitting at ' '.
   */
  function AbbreviationBase(clubName: string): string {
    var cleanName := CleanName(clubName);
    var initials := Initials(Split(cleanName, ' '));
    if |initials| < 2 then ToUpper(cleanName[..if |cleanName| < 3 then |cleanName| else 3]) else initials
  }

  /** The candidates in the order they are tried: the base, then the base with 1, 2, 3, ... */
  function Candidate(base: string, k: nat): string {
    if k == 0 then base else base + NatToString(k)
  }

  /** `r` is the first candidate for `base` that is not taken. */
  ghost predicate FirstFree(r: string, base: string, taken: set<string>) {
    exists k: nat :: r == Candidate(base, k) && r !in taken && forall m :: 0 <= m < k ==> Candidate(base, m) in taken
  }

  lemma CandidateInjective(base: string, a: nat, b: nat)
    requires Candidate(base, a) == Candidate(base, b)
    ensures a == b
  {
    if a != 0 && b != 0 {
      assert NatToString(a) == Candidate(base, a)[|base|..];
      assert NatToString(b) == Candidate(base, b)[|base|..];
      NatToStringInjective(a, b);
    } else if a != b {
      assert false;
    }
  }

  /** `x` is one of the first `j` candidates. */
  ghost predicate TriedBefore(x: string, base: string, j: nat) {
    exists m :: 0 <= m < j && x == Candidate(base, m)
  }

  lemma NotTriedYet(base: string, j: nat)
    ensures !TriedBefore(Candidate(base, j), base, j)
  {
    if TriedBefore(Candidate(base, j), base, j) {
      var m :| 0 <= m < j && Candidate(base, j) == Candidate(base, m);
      CandidateInjective(base, m, j);
    }
  }

  lemma TriedGrows(x: string, base: string, j: nat)
    requires TriedBefore(x, base, j) || x == Candidate(base, j)
    ensures TriedBefore(x, base, j + 1)
  {
  }

  /** `generateAbbreviation`. */
  method GenerateAbbreviation(clubName: string, existingAbbreviations: set<string>) returns (abbreviation: string)
    ensures abbreviation !in existingAbbreviations
    ensures FirstFree(abbreviation, AbbreviationBase(clubName), existingAbbreviations)
  {
    var cleanName := CleanName(clubName);
    abbreviation := Initials(Split(cleanName, ' '));
    if |abbreviation| < 2 {
      abbreviation := ToUpper(cleanName[..if |cleanName| < 3 then |cleanName| else 3]);
    }
    abbreviation := MakeUnique(abbreviation, existingAbbreviations);
  }

  /** The uniqueness loop of `generateAbbreviation`: append 1, 2, 3, ... until the text is free. */
  method MakeUnique(base: string, existingAbbreviations: set<string>) returns (abbreviation: string)
    ensures abbreviation !in existingAbbreviations
    ensures FirstFree(abbreviation, base, existingAbbreviations)
  {
    abbreviation := base;
    var counter := 1;
    var originalAbbreviation := abbreviation;
    ghost var untried := existingAbbreviations;
    while abbreviation in existingAbbreviations
      invariant counter >= 1
      invariant abbreviation == Candidate(originalAbbreviation, counter - 1)
      invariant forall m :: 0 <= m < counter - 1 ==> Candidate(originalAbbreviation, m) in existingAbbreviations
      invariant untried <= existingAbbreviations
      invariant forall x :: x in existingAbbreviations && x !in untried ==> TriedBefore(x, originalAbbreviation, counter - 1)
      decreases |untried|
    {
      NotTriedYet(originalAbbreviation, counter - 1);
      assert abbreviation in untried;
      ghost var tried := abbreviation;
      untried := untried - {abbreviation};
      forall x | x in existingAbbreviations && x !in untried
        ensures TriedBefore(x, originalAbbreviation, counter)
      {
        TriedGrows(x, originalAbbreviation, counter - 1);
      }
      abbreviation := originalAbbreviation + NatToString(counter);
      counter := counter + 1;
    }
  }

  /** There is only one first free candidate. */
  lemma FirstFreeUnique(r1: string, r2: string, base: string, taken: set<string>)
    requires FirstFree(r1, base, taken) && FirstFree(r2, base, taken)
    ensures r1 == r2
  {
    var k1: nat :| r1 == Candidate(base, k1) && r1 !in taken && forall m :: 0 <= m < k1 ==> Candidate(base, m) in taken;
    var k2: nat :| r2 == Candidate(base, k2) && r2 !in taken && forall m :: 0 <= m < k2 ==> Candidate(base, m) in taken;
    if k1 != k2 {
      assert false;
    }
  }

  /** A base that is not taken is used as it is, without a suffix. */
  lemma FreeBaseIsKept(r: string, base: string, taken: set<string>)
    requires FirstFree(r, base, taken) && base !in taken
    ensures r == base
  {
    assert FirstFree(base, base, taken) by {
      assert base == Candidate(base, 0);
    }
    FirstFreeUnique(r, base, base, taken);
  }

  /** A taken base gets the smallest positive suffix that makes it free. */
  lemma TakenBaseGetsSuffix(r: string, base: string, taken: set<string>)
    requires FirstFree(r, base, taken) && base in taken
    ensures exists k: nat ::
      k >= 1 && r == base + NatToString(k) && r !in taken && forall m :: 1 <= m < k ==> base + NatToString(m) in taken
  {
    var k: nat :| r == Candidate(base, k) && r !in taken && forall m :: 0 <= m < k ==> Candidate(base, m) in taken;
    assert k >= 1;
    forall m | 1 <= m < k ensures base + NatToString(m) in taken {
      assert Candidate(base, m) in taken;
    }
  }

  /**
   * A name that cleans to a single word has fewer than two initials, so its
   * base is its first three characters (or fewer), upper-cased.
   */
  lemma SingleWordBase(clubName: string)
    requires ' ' !in CleanName(clubName)
    ensures var cleanName := CleanName(clubName);
      AbbreviationBase(clubName) == ToUpper(cleanName[..if |cleanName| < 3 then |cleanName| else 3])
  {
    var cleanName := CleanName(clubName);
    SplitWhole(cleanName, ' ');
    assert |Initials(Split(cleanName, ' '))| <= 1;
  }

  // ================================================================== updates

  /**
   * The `clubMappings` object as JSON holds it: its entries, club name and
   * abbreviation, in the order the object lists them.
   */
  type ClubMap = seq<(string, string)>

  /** `Object.keys`, as a set. */
  function Keys(m: ClubMap): set<string> {
    set i | 0 <= i < |m| :: m[i].0
  }

  /** `Object.values`, as a set. */
  function Values(m: ClubMap): set<string> {
    set i | 0 <= i < |m| :: m[i].1
  }

  /** No club name is listed twice, as in any JavaScript object. */
  predicate DistinctKeys(m: ClubMap) {
    forall i, j :: 0 <= i < j < |m| ==> m[i].0 != m[j].0
  }

  /** The position of a club name among the entries. */
  function KeyIndex(m: ClubMap, k: string): (i: nat)
    requires k in Keys(m)
    ensures i < |m| && m[i].0 == k
    ensures forall j :: 0 <= j < i ==> m[j].0 != k
    decreases |m|
  {
    if m[0].0 == k then 0
    else
      assert k in Keys(m[1..]) by {
        var j :| 0 <= j < |m| && m[j].0 == k;
        assert m[1..][j - 1] == m[j];
      }
      1 + KeyIndex(m[1..], k)
  }

  /**
   * `object[k] = v`: an existing property keeps its place and takes the new
   * value, a new one is added after all the others.
   */
  function Put(m: ClubMap, k: string, v: string): (r: ClubMap)
    ensures k in Keys(m) ==>
      (|r| == |m| && r[KeyIndex(m, k)] == (k, v) && forall i :: 0 <= i < |m| && i != KeyIndex(m, k) ==> r[i] == m[i])
    ensures k !in Keys(m) ==> r == m + [(k, v)]
  {
    if k in Keys(m) then m[KeyIndex(m, k) := (k, v)] else m + [(k, v)]
  }

  /** Writing a property leaves every other club name where it was, with its value. */
  lemma PutFacts(m: ClubMap, k: string, v: string)
    ensures (k, v) in Put(m, k, v)
    ensures |m| <= |Put(m, k, v)|
    ensures forall i :: 0 <= i < |m| && m[i].0 != k ==> Put(m, k, v)[i] == m[i]
    ensures Keys(Put(m, k, v)) == Keys(m) + {k}
    ensures DistinctKeys(m) ==> DistinctKeys(Put(m, k, v))
  {
    var r := Put(m, k, v);
    if k in Keys(m) {
      assert r[KeyIndex(m, k)] == (k, v);
      forall x | x in Keys(m) + {k} ensures x in Keys(r) {
        if x == k { assert r[KeyIndex(m, k)].0 == x; }
        else { var i :| 0 <= i < |m| && m[i].0 == x; assert r[i].0 == x; }
      }
      forall x | x in Keys(r) ensures x in Keys(m) + {k} {
        var i :| 0 <= i < |r| && r[i].0 == x;
        if i != KeyIndex(m, k) { assert m[i].0 == x; }
      }
    } else {
      assert r[|m|] == (k, v);
      forall x | x in Keys(m) + {k} ensures x in Keys(r) {
        if x == k { assert r[|m|].0 == x; }
        else { var i :| 0 <= i < |m| && m[i].0 == x; assert r[i].0 == x; }
      }
      forall x | x in Keys(r) ensures x in Keys(m) + {k} {
        var i :| 0 <= i < |r| && r[i].0 == x;
        if i < |m| { assert m[i].0 == x; }
      }
      if DistinctKeys(m) {
        forall i | 0 <= i < |m| ensures m[i].0 != k { assert m[i].0 in Keys(m); }
      }
    }
  }

  datatype Update = Update(clubName: string, abbreviation: string)

  /** The mapping with every update written into it, later updates last. */
  function Applied(clubMappings: ClubMap, updates: seq<Update>): ClubMap
    decreases |updates|
  {
    if updates == [] then clubMappings
    else
      var last := updates[|updates| - 1];
      Put(Applied(clubMappings, updates[..|updates| - 1]), last.clubName, last.abbreviation)
  }

  /** The entries the updates give, in update order. */
  function Entries(updates: seq<Update>): (entries: ClubMap)
    ensures |entries| == |updates|
    ensures forall k :: 0 <= k < |updates| ==> entries[k] == (updates[k].clubName, updates[k].abbreviation)
  {
    seq(|updates|, k requires 0 <= k < |updates| => (updates[k].clubName, updates[k].abbreviation))
  }

  /** The clubs of a batch that are not yet keys of the mapping, in batch order. */
  function NewNames(newClubs: seq<string>, clubMappings: ClubMap): seq<string> {
    Filter(newClubs, (name: string) => name !in Keys(clubMappings))
  }

  /** The abbreviations of a list of updates. */
  function Abbreviations(updates: seq<Update>): set<string> {
    set k | 0 <= k < |updates| :: updates[k].abbreviation
  }

  /**
   * The updates a batch produces, club by club: a club that is already a key
   * adds nothing; any other club adds one update with the first free
   * abbreviation for its base (`baseOf` of its name), given the existing
   * abbreviations and those generated before it in the batch.
   */
  ghost predicate BatchUpdates(updates: seq<Update>, newClubs: seq<string>, clubMappings: ClubMap, baseOf: string -> string)
    decreases |newClubs|
  {
    if newClubs == [] then updates == []
    else
      var name := newClubs[|newClubs| - 1];
      var names := newClubs[..|newClubs| - 1];
      if name in Keys(clubMappings) then BatchUpdates(updates, names, clubMappings, baseOf)
      else
        updates != []
        && var u := updates[|updates| - 1];
        var before := updates[..|updates| - 1];
        u.clubName == name
        && FirstFree(u.abbreviation, baseOf(name), Values(clubMappings) + Abbreviations(before))
        && BatchUpdates(before, names, clubMappings, baseOf)
  }

  /** `updateClubMappings`: the updates, and the mapping that is written back (unchanged in a dry run or when there is nothing to add). */
  method UpdateClubMappings(newClubs: seq<string>, clubMappings: ClubMap, dryRun: bool)
    returns (updates: seq<Update>, mappings: ClubMap)
    ensures BatchUpdates(updates, newClubs, clubMappings, AbbreviationBase)
    ensures mappings == if dryRun then clubMappings else Applied(clubMappings, updates)
    ensures mappings == clubMappings + (if dryRun then [] else Applied([], updates))
    ensures !dryRun && (forall i, j :: 0 <= i < j < |newClubs| ==> newClubs[i] != newClubs[j]) ==>
      mappings == clubMappings + Entries(updates)
  {
    updates := CollectUpdates(newClubs, clubMappings);
    if |updates| == 0 {
      mappings := clubMappings;
      return;
    }
    if dryRun {
      mappings := clubMappings;
      return;
    }
    mappings := ApplyUpdates(clubMappings, updates);
    BatchDistinct(updates, newClubs, clubMappings, AbbreviationBase);
    AppliedKeepsExisting(clubMappings, updates);
    if forall i, j :: 0 <= i < j < |newClubs| ==> newClubs[i] != newClubs[j] {
      NewNamesDistinct(newClubs, clubMappings);
      AppliedInOrder(clubMappings, updates);
    }
  }

  /** The loop over the new clubs that builds `updates`. */
  method CollectUpdates(newClubs: seq<string>, clubMappings: ClubMap) returns (updates: seq<Update>)
    ensures BatchUpdates(updates, newClubs, clubMappings, AbbreviationBase)
  {
    updates := [];
    var existingAbbreviations := Values(clubMappings);
    for i := 0 to |newClubs|
      invariant BatchUpdates(updates, newClubs[..i], clubMappings, AbbreviationBase)
      invariant existingAbbreviations == Values(clubMappings) + Abbreviations(updates)
    {
      var clubName := newClubs[i];
      if clubName in Keys(clubMappings) {
        BatchSkip(updates, newClubs, i, clubMappings, AbbreviationBase);
        continue;
      }
      var abbreviation := GenerateAbbreviation(clubName, existingAbbreviations);
      Added(updates, newClubs, i, abbreviation, clubMappings, existingAbbreviations);
      updates := updates + [Update(clubName, abbreviation)];
      existingAbbreviations := existingAbbreviations + {abbreviation};
    }
    assert newClubs[..|newClubs|] == newClubs;
  }

  /** What one added club does to the loop's state. */
  lemma Added(updates: seq<Update>, newClubs: seq<string>, i: nat, abbreviation: string,
              clubMappings: ClubMap, existingAbbreviations: set<string>)
    requires i < |newClubs|
    requires BatchUpdates(updates, newClubs[..i], clubMappings, AbbreviationBase) && newClubs[i] !in Keys(clubMappings)
    requires existingAbbreviations == Values(clubMappings) + Abbreviations(updates)
    requires FirstFree(abbreviation, AbbreviationBase(newClubs[i]), existingAbbreviations)
    ensures BatchUpdates(updates + [Update(newClubs[i], abbreviation)], newClubs[..i + 1], clubMappings, AbbreviationBase)
    ensures existingAbbreviations + {abbreviation}
      == Values(clubMappings) + Abbreviations(updates + [Update(newClubs[i], abbreviation)])
  {
    BatchAdd(updates, newClubs, i, abbreviation, clubMappings, AbbreviationBase);
    AbbreviationsAdd(updates, Update(newClubs[i], abbreviation));
  }

  /** The `forEach` that writes the updates into the mapping. */
  method ApplyUpdates(clubMappings: ClubMap, updates: seq<Update>) returns (mappings: ClubMap)
    ensures mappings == Applied(clubMappings, updates)
  {
    mappings := clubMappings;
    for k := 0 to |updates|
      invariant mappings == Applied(clubMappings, updates[..k])
    {
      assert updates[..k + 1][..k] == updates[..k];
      mappings := Put(mappings, updates[k].clubName, updates[k].abbreviation);
    }
    assert updates[..|updates|] == updates;
  }

  lemma AbbreviationsAdd(updates: seq<Update>, u: Update)
    ensures Abbreviations(updates + [u]) == Abbreviations(updates) + {u.abbreviation}
  {
    var longer := updates + [u];
    assert forall k :: 0 <= k < |updates| ==> longer[k] == updates[k];
    assert longer[|updates|] == u;
  }

  lemma BatchSkip(updates: seq<Update>, newClubs: seq<string>, i: nat, clubMappings: ClubMap, baseOf: string -> string)
    requires i < |newClubs|
    requires BatchUpdates(updates, newClubs[..i], clubMappings, baseOf) && newClubs[i] in Keys(clubMappings)
    ensures BatchUpdates(updates, newClubs[..i + 1], clubMappings, baseOf)
  {
    assert newClubs[..i + 1][..i] == newClubs[..i];
  }

  lemma BatchAdd(updates: seq<Update>, newClubs: seq<string>, i: nat, abbreviation: string,
                 clubMappings: ClubMap, baseOf: string -> string)
    requires i < |newClubs|
    requires BatchUpdates(updates, newClubs[..i], clubMappings, baseOf) && newClubs[i] !in Keys(clubMappings)
    requires FirstFree(abbreviation, baseOf(newClubs[i]), Values(clubMappings) + Abbreviations(updates))
    ensures BatchUpdates(updates + [Update(newClubs[i], abbreviation)], newClubs[..i + 1], clubMappings, baseOf)
  {
    assert newClubs[..i + 1][..i] == newClubs[..i];
    assert (updates + [Update(newClubs[i], abbreviation)])[..|updates|] == updates;
  }

  lemma NewNamesStep(names: seq<string>, name: string, clubMappings: ClubMap)
    ensures NewNames(names + [name], clubMappings)
      == NewNames(names, clubMappings) + (if name !in Keys(clubMappings) then [name] else [])
  {
    assert (names + [name])[..|names|] == names;
  }

  /** Distinct clubs give distinct new names. */
  lemma {:induction false} NewNamesDistinct(newClubs: seq<string>, clubMappings: ClubMap)
    requires forall i, j :: 0 <= i < j < |newClubs| ==> newClubs[i] != newClubs[j]
    ensures var names := NewNames(newClubs, clubMappings);
      forall i, j :: 0 <= i < j < |names| ==> names[i] != names[j]
    decreases |newClubs|
  {
    if newClubs != [] {
      var name := newClubs[|newClubs| - 1];
      var front := newClubs[..|newClubs| - 1];
      assert newClubs == front + [name];
      NewNamesDistinct(front, clubMappings);
      NewNamesStep(front, name, clubMappings);
      FilterMembers(front, (n: string) => n !in Keys(clubMappings), name);
    }
  }

  lemma FirstFreeIsFree(r: string, base: string, taken: set<string>)
    requires FirstFree(r, base, taken)
    ensures r !in taken
  {
  }

  /**
   * A batch has one update per club that is not yet a key, in order. Every
   * generated abbreviation is new: none is an existing value of the mapping
   * and no two are equal.
   */
  lemma {:induction false} BatchDistinct(updates: seq<Update>, newClubs: seq<string>, clubMappings: ClubMap, baseOf: string -> string)
    requires BatchUpdates(updates, newClubs, clubMappings, baseOf)
    ensures var names := NewNames(newClubs, clubMappings);
      |updates| == |names| && forall k :: 0 <= k < |updates| ==> updates[k].clubName == names[k]
    ensures forall k :: 0 <= k < |updates| ==> updates[k].abbreviation !in Values(clubMappings)
    ensures forall i, j :: 0 <= i < j < |updates| ==> updates[i].abbreviation != updates[j].abbreviation
    ensures forall k :: 0 <= k < |updates| ==> updates[k].clubName !in Keys(clubMappings)
    decreases |newClubs|
  {
    if newClubs != [] {
      var name := newClubs[|newClubs| - 1];
      var names := newClubs[..|newClubs| - 1];
      assert newClubs == names + [name];
      NewNamesStep(names, name, clubMappings);
      if name in Keys(clubMappings) {
        BatchDistinct(updates, names, clubMappings, baseOf);
      } else {
        var before := updates[..|updates| - 1];
        var u := updates[|updates| - 1];
        BatchDistinct(before, names, clubMappings, baseOf);
        FirstFreeIsFree(u.abbreviation, baseOf(name), Values(clubMappings) + Abbreviations(before));
        assert updates == before + [u];
        forall i | 0 <= i < |before| ensures before[i].abbreviation != u.abbreviation {
          assert before[i].abbreviation in Abbreviations(before);
        }
      }
    }
  }

  /** Writing a club name that the front part does not hold touches only the back part. */
  lemma PutAfter(front: ClubMap, back: ClubMap, k: string, v: string)
    requires k !in Keys(front)
    ensures Put(front + back, k, v) == front + Put(back, k, v)
  {
    var m := front + back;
    assert forall i :: 0 <= i < |front| ==> m[i].0 != k by {
      forall i | 0 <= i < |front| ensures m[i].0 != k { assert front[i].0 in Keys(front); }
    }
    if k in Keys(back) {
      var j := KeyIndex(back, k);
      assert m[|front| + j].0 == k;
      assert k in Keys(m);
      var i := KeyIndex(m, k);
      assert i == |front| + j;
      assert m[i := (k, v)] == front + back[j := (k, v)];
    } else {
      assert k !in Keys(m);
      assert m + [(k, v)] == front + (back + [(k, v)]);
    }
  }

  /**
   * When no update is for an existing club, the existing entries stay as they
   * were, in their places, and what the updates add follows them.
   */
  lemma {:induction false} AppliedKeepsExisting(clubMappings: ClubMap, updates: seq<Update>)
    requires forall k :: 0 <= k < |updates| ==> updates[k].clubName !in Keys(clubMappings)
    ensures Applied(clubMappings, updates) == clubMappings + Applied([], updates)
    decreases |updates|
  {
    if updates == [] {
      assert clubMappings + [] == clubMappings;
    } else {
      var n := |updates| - 1;
      assert forall k :: 0 <= k < n ==> updates[..n][k] == updates[k];
      AppliedKeepsExisting(clubMappings, updates[..n]);
      PutAfter(clubMappings, Applied([], updates[..n]), updates[n].clubName, updates[n].abbreviation);
    }
  }

  /**
   * New, distinct club names are added after the existing entries in update
   * order: the object written back lists the old entries, then the updates.
   */
  lemma {:induction false} AppliedInOrder(clubMappings: ClubMap, updates: seq<Update>)
    requires forall k :: 0 <= k < |updates| ==> updates[k].clubName !in Keys(clubMappings)
    requires forall i, j :: 0 <= i < j < |updates| ==> updates[i].clubName != updates[j].clubName
    ensures Applied(clubMappings, updates) == clubMappings + Entries(updates)
    decreases |updates|
  {
    if updates != [] {
      var n := |updates| - 1;
      var u := updates[n];
      assert forall k :: 0 <= k < n ==> updates[..n][k] == updates[k];
      AppliedInOrder(clubMappings, updates[..n]);
      var e := clubMappings + Entries(updates[..n]);
      assert u.clubName !in Keys(e);
      assert e + [(u.clubName, u.abbreviation)] == clubMappings + Entries(updates);
    } else {
      assert clubMappings + [] == clubMappings;
    }
  }

  /** With distinct club names, the mapping ends up holding every update's entry. */
  lemma {:induction false} AppliedWritesUpdates(clubMappings: ClubMap, updates: seq<Update>)
    requires forall i, j :: 0 <= i < j < |updates| ==> updates[i].clubName != updates[j].clubName
    ensures forall k :: 0 <= k < |updates| ==>
      (updates[k].clubName, updates[k].abbreviation) in Applied(clubMappings, updates)
    decreases |updates|
  {
    if updates != [] {
      var n := |updates| - 1;
      var u := updates[n];
      var before := Applied(clubMappings, updates[..n]);
      assert forall k :: 0 <= k < n ==> updates[..n][k] == updates[k];
      AppliedWritesUpdates(clubMappings, updates[..n]);
      PutFacts(before, u.clubName, u.abbreviation);
      forall k | 0 <= k < n
        ensures (updates[k].clubName, updates[k].abbreviation) in Applied(clubMappings, updates)
      {
        var i :| 0 <= i < |before| && before[i] == (updates[k].clubName, updates[k].abbreviation);
        assert Put(before, u.clubName, u.abbreviation)[i] == before[i];
      }
    }
  }

  /** Writing the updates never lists a club name twice. */
  lemma {:induction false} AppliedDistinctKeys(clubMappings: ClubMap, updates: seq<Update>)
    requires DistinctKeys(clubMappings)
    ensures DistinctKeys(Applied(clubMappings, updates))
    decreases |updates|
  {
    if updates != [] {
      var n := |updates| - 1;
      AppliedDistinctKeys(clubMappings, updates[..n]);
      PutFacts(Applied(clubMappings, updates[..n]), updates[n].clubName, updates[n].abbreviation);
    }
  }

  /** The keys after the updates are the old keys plus the updated club names. */
  lemma {:induction false} AppliedKeys(clubMappings: ClubMap, updates: seq<Update>)
    ensures Keys(Applied(clubMappings, updates))
      == Keys(clubMappings) + set k | 0 <= k < |updates| :: updates[k].clubName
    decreases |updates|
  {
    if updates != [] {
      var n := |updates| - 1;
      AppliedKeys(clubMappings, updates[..n]);
      PutFacts(Applied(clubMappings, updates[..n]), updates[n].clubName, updates[n].abbreviation);
      assert (set k | 0 <= k < |updates| :: updates[k].clubName)
        == (set k | 0 <= k < n :: updates[..n][k].clubName) + {updates[n].clubName};
    }
  }

  // ================================================================ arguments

  datatype Options = Options(help: bool, dryRun: bool)

  /** `parseArguments`: `--help`/`-h` and `--dry-run`/`-d`; anything else is ignored. */
  method ParseArguments(args: seq<string>) returns (options: Options)
    ensures options.help <==> "--help" in args || "-h" in args
    ensures options.dryRun <==> "--dry-run" in args || "-d" in args
  {
    options := Options(false, false);
    for i := 0 to |args|
      invariant options.help <==> "--help" in args[..i] || "-h" in args[..i]
      invariant options.dryRun <==> "--dry-run" in args[..i] || "-d" in args[..i]
    {
      var arg := args[i];
      assert args[..i + 1] == args[..i] + [arg];
      if arg == "--help" || arg == "-h" {
        options := options.(help := true);
      } else if arg == "--dry-run" || arg == "-d" {
        options := options.(dryRun := true);
      }
    }
    assert args[..|args|] == args;
  }
}
