/**
 * The day column of the timetable holds one- or two-letter French abbreviations: l, m, me, j,
 * v, s, d. "m" is ambiguous (mardi or mercredi); map_jour_with_order reads the column top to
 * bottom and takes "m" for Mardi right after a Lundi and for Mercredi otherwise.
 */
module Weekdays {
  import opened Results
  import opened Text

  /** An entry as the scan compares it: str(j).strip().lower(). */
  function Clean(entry: string): (c: string)
  {
    Lower(Strip(entry))
  }

  /** The day name for one cleaned entry, given the name resolved just before it (None at the top). */
  function ResolveOne(entry: string, previous: Option<string>): (name: string)
    ensures name == entry || name in {"Lundi", "Mardi", "Mercredi", "Jeudi", "Vendredi", "Samedi", "Dimanche"}
  {
    if entry == "l" then "Lundi"
    else if entry == "m" then (if previous == Some("Lundi") then "Mardi" else "Mercredi")
    else if entry == "me" then "Mercredi"
    else if entry == "j" then "Jeudi"
    else if entry == "v" then "Vendredi"
    else if entry == "s" then "Samedi"
    else if entry == "d" then "Dimanche"
    else entry
  }

  /** The scan over cleaned entries, carrying the last resolved name. */
  function ResolveFrom(entries: seq<string>, previous: Option<string>): (names: seq<string>)
    ensures |names| == |entries|
    decreases |entries|
  {
    if entries == [] then []
    else
      var name := ResolveOne(entries[0], previous);
      [name] + ResolveFrom(entries[1..], Some(name))
  }

  /** The list comprehension that cleans every entry before the scan. */
  function CleanAll(jours: seq<string>): (cleaned: seq<string>)
    ensures |cleaned| == |jours|
    ensures forall i :: 0 <= i < |jours| ==> cleaned[i] == Clean(jours[i])
  {
    seq(|jours|, i requires 0 <= i < |jours| => Clean(jours[i]))
  }

  /** What map_jour_with_order returns for the day column `jours`. */
  function ResolveDays(jours: seq<string>): (names: seq<string>)
    ensures |names| == |jours|
  {
    ResolveFrom(CleanAll(jours), None)
  }

  /**
   * map_jour_with_order: clean every entry, then scan them in order, appending the resolved
   * name and remembering it as the previous one.
   */
  method MapDaysWithOrder(jours: seq<string>) returns (result: seq<string>)
    ensures result == ResolveDays(jours)
  {
    var cleaned := CleanAll(jours);
    result := ScanDays(cleaned);
  }

  /** The loop of map_jour_with_order over the cleaned entries. */
  method ScanDays(cleaned: seq<string>) returns (result: seq<string>)
    ensures result == ResolveFrom(cleaned, None)
  {
    result := [];
    var previous: Option<string> := None;
    var i := 0;
    ghost var names := ResolveFrom(cleaned, None);
    while i < |cleaned|
      invariant 0 <= i <= |cleaned|
      invariant result == names[..i]
      invariant previous == if i == 0 then None else Some(names[i - 1])
      decreases |cleaned| - i
    {
      var jour := cleaned[i];
      var name := ResolveOne(jour, previous);
      ResolveFromAt(cleaned, None, i);
      assert names[..i + 1] == names[..i] + [name];
      result := result + [name];
      previous := Some(result[|result| - 1]);
      i := i + 1;
    }
    assert names[..i] == names;
  }

  /** Entry k of the scan is resolved against the name resolved at k - 1. */
  lemma {:induction false} ResolveFromAt(entries: seq<string>, previous: Option<string>, k: nat)
    requires k < |entries|
    ensures ResolveFrom(entries, previous)[k]
         == ResolveOne(entries[k], if k == 0 then previous else Some(ResolveFrom(entries, previous)[k - 1]))
    decreases k
  {
    if k > 0 {
      var name := ResolveOne(entries[0], previous);
      ResolveFromAt(entries[1..], Some(name), k - 1);
    }
  }

  /** Each name is the cleaned entry at the same place, resolved against the name above it. */
  lemma ResolveDaysAt(jours: seq<string>, k: nat)
    requires k < |jours|
    ensures ResolveDays(jours)[k]
         == ResolveOne(Clean(jours[k]), if k == 0 then None else Some(ResolveDays(jours)[k - 1]))
  {
    ResolveFromAt(CleanAll(jours), None, k);
  }

  /** The unambiguous abbreviations resolve to fixed names; anything else is kept in its cleaned form. */
  lemma FixedAbbreviations(jours: seq<string>, k: nat)
    requires k < |jours|
    ensures Clean(jours[k]) == "l" ==> ResolveDays(jours)[k] == "Lundi"
    ensures Clean(jours[k]) == "me" ==> ResolveDays(jours)[k] == "Mercredi"
    ensures Clean(jours[k]) == "j" ==> ResolveDays(jours)[k] == "Jeudi"
    ensures Clean(jours[k]) == "v" ==> ResolveDays(jours)[k] == "Vendredi"
    ensures Clean(jours[k]) == "s" ==> ResolveDays(jours)[k] == "Samedi"
    ensures Clean(jours[k]) == "d" ==> ResolveDays(jours)[k] == "Dimanche"
    ensures Clean(jours[k]) !in {"l", "m", "me", "j", "v", "s", "d"} ==> ResolveDays(jours)[k] == Clean(jours[k])
  {
    ResolveDaysAt(jours, k);
    var previous := if k == 0 then None else Some(ResolveDays(jours)[k - 1]);
    ResolveOneFixed(Clean(jours[k]), previous);
  }

  /** ResolveOne on its own: only "m" looks at the previous name. */
  lemma ResolveOneFixed(entry: string, previous: Option<string>)
    ensures entry == "l" ==> ResolveOne(entry, previous) == "Lundi"
    ensures entry == "me" ==> ResolveOne(entry, previous) == "Mercredi"
    ensures entry == "j" ==> ResolveOne(entry, previous) == "Jeudi"
    ensures entry == "v" ==> ResolveOne(entry, previous) == "Vendredi"
    ensures entry == "s" ==> ResolveOne(entry, previous) == "Samedi"
    ensures entry == "d" ==> ResolveOne(entry, previous) == "Dimanche"
    ensures entry !in {"l", "m", "me", "j", "v", "s", "d"} ==> ResolveOne(entry, previous) == entry
  {
  }

  /** Only an "l" entry resolves to "Lundi": an unknown entry passes through lower-cased. */
  lemma LundiOnlyFromL(jours: seq<string>, k: nat)
    requires k < |jours|
    ensures ResolveDays(jours)[k] == "Lundi" <==> Clean(jours[k]) == "l"
  {
    ResolveDaysAt(jours, k);
    var c := Clean(jours[k]);
    assert |c| > 0 ==> c[0] != 'L';
    ResolveOneLundi(c, if k == 0 then None else Some(ResolveDays(jours)[k - 1]));
  }

  /** ResolveOne gives "Lundi" for "l" and for nothing else that does not start with 'L'. */
  lemma ResolveOneLundi(entry: string, previous: Option<string>)
    requires |entry| > 0 ==> entry[0] != 'L'
    ensures ResolveOne(entry, previous) == "Lundi" <==> entry == "l"
  {
  }

  /** "m" is Mardi after a Lundi and Mercredi after anything else or at the top. */
  lemma ResolveOneM(previous: Option<string>)
    ensures ResolveOne("m", previous) == (if previous == Some("Lundi") then "Mardi" else "Mercredi")
  {
  }

  /**
   * "m" resolves to Mardi exactly when the entry just above it is an "l" (so at the top of the
   * column it is Mercredi), and to Mercredi otherwise.
   */
  lemma MardiIffAfterLundi(jours: seq<string>, k: nat)
    requires k < |jours| && Clean(jours[k]) == "m"
    ensures ResolveDays(jours)[k] in {"Mardi", "Mercredi"}
    ensures ResolveDays(jours)[k] == "Mardi" <==> k > 0 && Clean(jours[k - 1]) == "l"
  {
    ResolveDaysAt(jours, k);
    var previous := if k == 0 then None else Some(ResolveDays(jours)[k - 1]);
    ResolveOneM(previous);
    if k > 0 {
      LundiOnlyFromL(jours, k - 1);
    }
  }
}
