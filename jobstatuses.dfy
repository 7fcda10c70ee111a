/** The six job statuses (domain/JobStatus.go). A status is held as a plain
    string, since the repository stores whatever status it is given. */
module JobStatuses {
  import opened GoStrings

  const StatusCreated: string := "created"
  const StatusQueued: string := "queued"
  const StatusRunning: string := "running"
  const StatusPaused: string := "paused"
  const StatusFinished: string := "finished"
  const StatusFailed: string := "failed"

  /** The statuses in declaration order. */
  const Statuses: seq<string> := [StatusCreated, StatusQueued, StatusRunning, StatusPaused, StatusFinished, StatusFailed]

  /** A status name is valid when, lower-cased and trimmed, it is one of the
      six. */
  predicate IsValidJobStatus(statusVal: string)
  {
    var val := TrimSpace(ToLower(statusVal));
    val == StatusCreated || val == StatusQueued || val == StatusRunning
    || val == StatusPaused || val == StatusFinished || val == StatusFailed
  }

  /** Validity is membership of the normalised string in the status list. */
  lemma ValidIsMembership(s: string)
    ensures IsValidJobStatus(s) <==> TrimSpace(ToLower(s)) in Statuses
  {
    InStatuses(TrimSpace(ToLower(s)));
  }

  /** Membership in the status list is being one of the six. */
  lemma InStatuses(v: string)
    ensures v in Statuses <==> v == StatusCreated || v == StatusQueued || v == StatusRunning
                               || v == StatusPaused || v == StatusFinished || v == StatusFailed
  {
  }

  /** The six constants are pairwise distinct. */
  lemma StatusesDistinct()
    ensures |Statuses| == 6
    ensures forall j, k :: 0 <= j < k < |Statuses| ==> Statuses[j] != Statuses[k]
  {
  }

  /** Each of the six statuses is accepted, being its own lower-case,
      trimmed form. */
  lemma EveryStatusValid()
    ensures IsValidJobStatus(StatusCreated) && IsValidJobStatus(StatusQueued) && IsValidJobStatus(StatusRunning)
    ensures IsValidJobStatus(StatusPaused) && IsValidJobStatus(StatusFinished) && IsValidJobStatus(StatusFailed)
  {
    StatusValid(StatusCreated);
    StatusValid(StatusQueued);
    StatusValid(StatusRunning);
    StatusValid(StatusPaused);
    StatusValid(StatusFinished);
    StatusValid(StatusFailed);
  }

  /** One of the six statuses is accepted. */
  lemma StatusValid(w: string)
    requires w == StatusCreated || w == StatusQueued || w == StatusRunning
             || w == StatusPaused || w == StatusFinished || w == StatusFailed
    ensures IsValidJobStatus(w)
  {
    if w == StatusCreated {
      LowerWordNormalised(StatusCreated);
    } else if w == StatusQueued {
      LowerWordNormalised(StatusQueued);
    } else if w == StatusRunning {
      LowerWordNormalised(StatusRunning);
    } else if w == StatusPaused {
      LowerWordNormalised(StatusPaused);
    } else if w == StatusFinished {
      LowerWordNormalised(StatusFinished);
    } else {
      LowerWordNormalised(StatusFailed);
    }
    OwnFormValid(w);
  }

  /** A status name that is its own lower-case, trimmed form is valid. */
  lemma OwnFormValid(w: string)
    requires ToLower(w) == w && TrimSpace(w) == w
    requires w == StatusCreated || w == StatusQueued || w == StatusRunning
             || w == StatusPaused || w == StatusFinished || w == StatusFailed
    ensures IsValidJobStatus(w)
  {
  }

  /** IsValidJobStatus is invariant under its own normalisation, in either
      order of trimming and lower-casing. */
  lemma Normalised(s: string)
    ensures IsValidJobStatus(s) == IsValidJobStatus(ToLower(TrimSpace(s)))
    ensures IsValidJobStatus(s) == IsValidJobStatus(TrimSpace(ToLower(s)))
  {
    LowerTrimCommute(s);
    ToLowerIdempotent(TrimSpace(s));
    TrimSpaceIdempotent(ToLower(s));
    LowerTrimCommute(TrimSpace(ToLower(s)));
    ToLowerIdempotent(s);
  }

  /** Case does not matter. */
  lemma IgnoresCase(a: string, b: string)
    requires EqualFold(a, b)
    ensures IsValidJobStatus(a) == IsValidJobStatus(b)
  {
  }

  /** Surrounding white space does not matter. */
  lemma IgnoresSurroundingSpace(pad1: string, s: string, pad2: string)
    requires AllSpace(pad1) && AllSpace(pad2)
    ensures IsValidJobStatus(pad1 + s + pad2) == IsValidJobStatus(s)
  {
    ToLowerConcat(pad1 + s, pad2);
    ToLowerConcat(pad1, s);
    ToLowerKeepsAllSpace(pad1);
    ToLowerKeepsAllSpace(pad2);
    TrimSpacePadded(ToLower(pad1), ToLower(s), ToLower(pad2));
  }

  /** A blank string (empty or only white space) is rejected. */
  lemma BlankRejected(s: string)
    requires AllSpace(s)
    ensures !IsValidJobStatus(s)
  {
    ToLowerKeepsAllSpace(s);
    assert ToLower(s) == ToLower(s) + "" + "";
    TrimSpaceOfPadded(ToLower(s), "", "");
  }

  /** A name outside the six is rejected, e.g. "bogus". */
  lemma BogusRejected()
    ensures !IsValidJobStatus("bogus")
  {
    LowerWordNormalised("bogus");
  }
}
