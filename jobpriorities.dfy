/** The job priority table (domain/JobPriority.go): five names at stored
    indices 0..4. A job holds its priority as such an index. The lookups
    by name and by index are those of the Enum table (domain/enums.go). */
module JobPriorities {
  import opened Common
  import opened GoStrings
  import opened Enums

  const JobPriority: Enum := Enum([EnumItem(0, "realtime"), EnumItem(1, "high"), EnumItem(2, "medium"),
                                   EnumItem(3, "low"), EnumItem(4, "idle")])

  /** A priority as a job stores it: an index into the table. */
  type PriorityIndex = i: int | 0 <= i < 5

  /** The priority a new job gets: medium. */
  const DefaultPriority: PriorityIndex := 2

  /** Every stored index equals its slice position. */
  lemma Positional()
    ensures |JobPriority.items| == 5
    ensures forall k :: 0 <= k < |JobPriority.items| ==> JobPriority.items[k].index == k
  {
  }

  /** The names, in index order. */
  lemma NamesInOrder()
    ensures JobPriority.Values() == ["realtime", "high", "medium", "low", "idle"]
  {
    var names := JobPriority.Values();
    assert |names| == 5;
    assert names == ["realtime", "high", "medium", "low", "idle"];
  }

  /** The names are already lower case and differ even ignoring case, so
      looking a name up is a function. */
  lemma NamesDistinct()
    ensures forall k :: 0 <= k < 5 ==> ToLower(JobPriority.items[k].value) == JobPriority.items[k].value
    ensures forall j, k :: 0 <= j < k < 5 ==> !EqualFold(JobPriority.items[j].value, JobPriority.items[k].value)
  {
    var items := JobPriority.items;
    forall k | 0 <= k < 5
      ensures ToLower(items[k].value) == items[k].value
    {
      NameIsLower(k);
    }
    forall j, k | 0 <= j < k < 5
      ensures !EqualFold(items[j].value, items[k].value)
    {
      FirstLetterDiffers(j, k);
      FoldDiffers(items[j].value, items[k].value);
    }
  }

  /** The name at a position is lower case. */
  lemma NameIsLower(k: nat)
    requires k < 5
    ensures ToLower(JobPriority.items[k].value) == JobPriority.items[k].value
  {
    if k == 0 { LowerWordNormalised("realtime"); }
    else if k == 1 { LowerWordNormalised("high"); }
    else if k == 2 { LowerWordNormalised("medium"); }
    else if k == 3 { LowerWordNormalised("low"); }
    else { LowerWordNormalised("idle"); }
  }

  /** The five names start with five different lower-case letters. */
  lemma FirstLetterDiffers(j: nat, k: nat)
    requires j < k < 5
    ensures |JobPriority.items[j].value| > 0 && |JobPriority.items[k].value| > 0
    ensures JobPriority.items[j].value[0] != JobPriority.items[k].value[0]
    ensures 'a' <= JobPriority.items[j].value[0] <= 'z' && 'a' <= JobPriority.items[k].value[0] <= 'z'
  {
  }

  /** A name accepted by the table (the external IsValidPriority, with the
      semantics of Enum.Index): one of the five, ignoring case. */
  predicate IsValidPriority(name: string)
  {
    JobPriority.Index(name).err.None?
  }

  /** The priority index of a name (AsIndex with its error ignored, as its
      callers do): the position of the matching name, or 0. */
  function PriorityIndexOf(name: string): (p: PriorityIndex)
    ensures IsValidPriority(name) ==> EqualFold(name, JobPriority.items[p].value)
    ensures !IsValidPriority(name) ==> p == 0
  {
    JobPriority.Index(name).value
  }

  /** The name of a priority index (AsValue). */
  function PriorityName(p: PriorityIndex): (name: string)
    ensures name == JobPriority.items[p].value
    ensures JobPriority.Value(p) == Lookup(name, None)
  {
    Positional();
    PositionalValue(JobPriority, p);
    JobPriority.Value(p).value
  }

  /** IsValidPriority holds exactly for the five names, in any case. */
  lemma ValidPriorityNames(name: string)
    ensures IsValidPriority(name) <==> (EqualFold(name, "realtime") || EqualFold(name, "high") || EqualFold(name, "medium")
                                       || EqualFold(name, "low") || EqualFold(name, "idle"))
  {
    var items := JobPriority.items;
    if IsValidPriority(name) {
      var k := JobPriority.Index(name).value;
      assert items[k].value in ["realtime", "high", "medium", "low", "idle"];
    } else {
      assert forall k :: 0 <= k < 5 ==> !EqualFold(name, items[k].value);
      assert items[0].value == "realtime" && items[1].value == "high" && items[2].value == "medium";
      assert items[3].value == "low" && items[4].value == "idle";
    }
  }

  /** Index to name to index is the identity. */
  lemma IndexNameRoundTrip(p: PriorityIndex)
    ensures IsValidPriority(PriorityName(p))
    ensures PriorityIndexOf(PriorityName(p)) == p
  {
    NamesDistinct();
    var name := PriorityName(p);
    var r := JobPriority.Index(name);
    assert EqualFold(name, JobPriority.items[p].value);
    assert r.err.None?;
  }

  /** Name to index to name yields the table's (lower-case) spelling of the
      name. */
  lemma NameIndexRoundTrip(name: string)
    requires IsValidPriority(name)
    ensures PriorityName(PriorityIndexOf(name)) == ToLower(name)
    ensures EqualFold(name, PriorityName(PriorityIndexOf(name)))
  {
    NamesDistinct();
    PositionalRoundTrip(JobPriority, name);
  }

  /** "high" and "High" are valid priorities and name index 1. */
  lemma HighIsValid()
    ensures IsValidPriority("high") && IsValidPriority("High")
    ensures PriorityIndexOf("High") == 1
  {
    IndexNameRoundTrip(1);
    assert PriorityName(1) == "high";
    NameIsLower(1);
    UpperHighFolds();
    assert EqualFold("High", JobPriority.items[1].value);
    NamesDistinct();
  }

  /** "High" folds to "high". */
  lemma UpperHighFolds()
    ensures ToLower("High") == "high"
  {
  }

  /** "bogus" is not a priority. */
  lemma BogusIsInvalid()
    ensures !IsValidPriority("bogus")
  {
    ValidPriorityNames("bogus");
    assert |ToLower("bogus")| == 5;
  }

  /** The default priority is medium. */
  lemma DefaultIsMedium()
    ensures PriorityName(DefaultPriority) == "medium"
    ensures PriorityIndexOf("medium") == DefaultPriority
  {
    IndexNameRoundTrip(DefaultPriority);
  }
}
