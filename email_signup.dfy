/**
 * The alert sign-up form: the address is trimmed and lower-cased, then upserted into the
 * subscriber table keyed on the address, while the form steps through idle, loading, and
 * success or error.
 */
module EmailSignup {
  import opened Wrappers
  import opened Text
  import opened Tables

  datatype Status = Idle | Loading | Success | Failed

  /** The only error text the form shows; the store's own message is not surfaced. */
  const ErrorMessage: string := "Something went wrong. Try again."

  /** `email.trim().toLowerCase()`: the subscriber key. */
  function Normalize(s: string): (r: string)
    ensures |r| <= |s|
    ensures r != [] ==> !IsJsSpace(r[0]) && !IsJsSpace(r[|r| - 1])
    ensures forall i | 0 <= i < |r| :: !('A' <= r[i] <= 'Z')
    ensures exists k: nat :: LoweredSliceAt(s, r, k)
  {
    var t := Trim(s, IsJsSpace);
    TrimEnds(s, IsJsSpace);
    KeyIsLoweredSlice(s);
    LowerKeepsSpaces(t);
    Lower(t)
  }

  /** Every character of `s` before `lo` and from `hi` on is whitespace. */
  predicate SpacesOutside(s: string, lo: nat, hi: nat) {
    && (forall i | 0 <= i < lo && i < |s| :: IsJsSpace(s[i]))
    && (forall i | hi <= i < |s| :: IsJsSpace(s[i]))
  }

  /** `r` is the lower-cased slice of `s` that starts at `k`, and only whitespace lies outside it. */
  predicate LoweredSliceAt(s: string, r: string, k: nat) {
    && k + |r| <= |s|
    && (forall i | 0 <= i < |r| :: r[i] == LowerChar(s[k + i]))
    && SpacesOutside(s, k, k + |r|)
  }

  /** The key is the lower-cased middle of the input, with only whitespace cut from either side. */
  lemma KeyIsLoweredSlice(s: string)
    ensures exists k: nat :: LoweredSliceAt(s, Lower(Trim(s, IsJsSpace)), k)
  {
    TrimSlice(s, IsJsSpace);
    var t, k := Trim(s, IsJsSpace), |s| - |TrimStart(s, IsJsSpace)|;
    assert SpacesOutside(s, k, k + |t|);
    LoweredSliceOf(s, t, k);
  }

  lemma LoweredSliceOf(s: string, t: string, k: nat)
    requires k + |t| <= |s| && t == s[k..k + |t|] && SpacesOutside(s, k, k + |t|)
    ensures LoweredSliceAt(s, Lower(t), k)
  {
    var r := Lower(t);
    assert |r| == |t|;
    forall i | 0 <= i < |r| ensures r[i] == LowerChar(s[k + i]) {
      assert t[i] == s[k + i];
    }
  }

  lemma LowerKeepsSpaces(t: string)
    ensures forall i | 0 <= i < |t| :: (IsJsSpace(Lower(t)[i]) <==> IsJsSpace(t[i])) && !('A' <= Lower(t)[i] <= 'Z')
  {
    forall i | 0 <= i < |t| ensures (IsJsSpace(Lower(t)[i]) <==> IsJsSpace(t[i])) && !('A' <= Lower(t)[i] <= 'Z') {
      LowerCharSpace(t[i]);
    }
  }

  /** Lower-casing neither makes nor removes whitespace, and leaves no capital letter. */
  lemma LowerCharSpace(c: char)
    ensures IsJsSpace(LowerChar(c)) <==> IsJsSpace(c)
    ensures !('A' <= LowerChar(c) <= 'Z')
  {
  }

  /** Stripping an input made only of whitespace leaves nothing. */
  lemma {:induction false} TrimStartAllSpace(s: string)
    requires forall i | 0 <= i < |s| :: IsJsSpace(s[i])
    ensures TrimStart(s, IsJsSpace) == []
  {
    if s != [] {
      assert forall i | 0 <= i < |s[1..]| :: s[1..][i] == s[i + 1];
      TrimStartAllSpace(s[1..]);
    }
  }

  /** Normalising a key again gives the same key. */
  lemma NormalizeIdempotent(s: string)
    ensures Normalize(Normalize(s)) == Normalize(s)
  {
    var r := Normalize(s);
    if r != [] {
      TrimUnpadded(r, IsJsSpace);
    }
    LowerIdempotent(Trim(s, IsJsSpace));
  }

  /** An input made only of whitespace passes the emptiness check and is stored as "". */
  lemma WhitespaceOnlyIsEmptyKey(s: string)
    requires forall i | 0 <= i < |s| :: IsJsSpace(s[i])
    ensures Normalize(s) == ""
  {
    TrimStartAllSpace(s);
  }

  /** Stripping the start commutes with lower-casing, which neither makes nor removes whitespace. */
  lemma {:induction false} TrimStartLower(s: string)
    ensures TrimStart(Lower(s), IsJsSpace) == Lower(TrimStart(s, IsJsSpace))
  {
    if s != [] {
      LowerCharSpace(s[0]);
      TrimStartLower(s[1..]);
      assert Lower(s)[1..] == Lower(s[1..]);
    }
  }

  /** Stripping the end commutes with lower-casing. */
  lemma {:induction false} TrimEndLower(s: string)
    ensures TrimEnd(Lower(s), IsJsSpace) == Lower(TrimEnd(s, IsJsSpace))
    decreases |s|
  {
    if s != [] {
      var n := |s| - 1;
      LowerPrefix(s, n);
      TrimEndStep(s);
      TrimEndStep(Lower(s));
      LowerCharSpace(s[n]);
      TrimEndLower(s[..n]);
    }
  }

  lemma LowerPrefix(s: string, n: nat)
    requires n < |s|
    ensures Lower(s)[..n] == Lower(s[..n]) && Lower(s)[n] == LowerChar(s[n])
  {
  }

  lemma TrimEndStep(s: string)
    requires s != []
    ensures TrimEnd(s, IsJsSpace) == if IsJsSpace(s[|s| - 1]) then TrimEnd(s[..|s| - 1], IsJsSpace) else s
  {
  }

  /** Capitals make no difference: an address and its lower-cased form get the same key. */
  lemma NormalizeLower(s: string)
    ensures Normalize(Lower(s)) == Normalize(s)
  {
    TrimStartLower(s);
    TrimEndLower(TrimStart(s, IsJsSpace));
    LowerIdempotent(Trim(s, IsJsSpace));
  }

  /** Appending a blank to a string with something other than blanks keeps its stripped start. */
  lemma {:induction false} TrimStartAppend(s: string, c: char)
    requires IsJsSpace(c)
    ensures TrimStart(s + [c], IsJsSpace) == if TrimStart(s, IsJsSpace) == [] then [] else TrimStart(s, IsJsSpace) + [c]
  {
    if s != [] {
      assert (s + [c])[1..] == s[1..] + [c];
      TrimStartAppend(s[1..], c);
    }
  }

  /** Trailing blanks make no difference to the key. */
  lemma NormalizeTrailingSpace(s: string, c: char)
    requires IsJsSpace(c)
    ensures Normalize(s + [c]) == Normalize(s)
  {
    TrimStartAppend(s, c);
    var t := TrimStart(s, IsJsSpace);
    if t != [] {
      assert (t + [c])[..|t|] == t;
    }
  }

  /** Leading blanks make no difference to the key. */
  lemma NormalizeLeadingSpace(s: string, c: char)
    requires IsJsSpace(c)
    ensures Normalize([c] + s) == Normalize(s)
  {
    assert ([c] + s)[1..] == s;
  }

  /**
   * Two submissions whose inputs normalise alike leave one active row for the key, and the
   * rows of every other address are kept as they were.
   */
  lemma SubmitTwiceOneRow(subs: seq<Subscriber>, a: string, b: string)
    requires UniqueEmails(subs) && Normalize(a) == Normalize(b)
    ensures var after := UpsertSubscriberRows(UpsertSubscriberRows(subs, Normalize(a)), Normalize(b));
      && UniqueEmails(after)
      && CountEmail(after, Normalize(a)) == 1
      && (forall i | 0 <= i < |after| && after[i].email == Normalize(a) :: after[i].active)
      && (forall e | e != Normalize(a) :: CountEmail(after, e) == CountEmail(subs, e))
      && (forall x | x in subs && x.email != Normalize(a) :: x in after)
      && (forall x | x in after && x.email != Normalize(a) :: x in subs)
  {
  }

  /** An address typed with capitals, and again in lower case with a trailing blank, leaves a single row. */
  lemma MixedCaseAndPaddingOneRow(subs: seq<Subscriber>, a: string)
    requires UniqueEmails(subs)
    ensures var after := UpsertSubscriberRows(UpsertSubscriberRows(subs, Normalize(a)), Normalize(Lower(a) + " "));
      CountEmail(after, Normalize(a)) == 1
  {
    NormalizeTrailingSpace(Lower(a), ' ');
    NormalizeLower(a);
    SubmitTwiceOneRow(subs, a, Lower(a) + " ");
  }

  /** The form's state. */
  class SignupForm {
    var email: string
    var status: Status
    var errorMsg: string

    constructor ()
      ensures email == "" && status == Idle && errorMsg == ""
    {
      email, status, errorMsg := "", Idle, "";
    }

    /** The input's `onChange`. */
    method Edit(s: string)
      modifies this`email
      ensures email == s
    {
      email := s;
    }

    /**
     * The synchronous part of `handleSubmit`: an empty input does nothing; otherwise the form
     * shows loading, clears the error, and hands over the key to write.
     */
    method BeginSubmit() returns (key: Option<string>)
      modifies this`status, this`errorMsg
      ensures old(email) == [] ==> key == None && status == old(status) && errorMsg == old(errorMsg)
      ensures old(email) != [] ==> key == Some(Normalize(email)) && status == Loading && errorMsg == ""
    {
      if email == [] {
        return None;
      }
      status := Loading;
      errorMsg := "";
      key := Some(Normalize(email));
    }

    /**
     * The answer of the upsert: `writeFailed` is an error reply, which leaves the table as it
     * was and shows the fixed message; otherwise the key is active and the input is cleared.
     */
    method FinishSubmit(db: Store, key: string, writeFailed: bool)
      requires db.Valid() && status == Loading
      modifies this`status, this`errorMsg, this`email, db`subscribers
      ensures db.Valid()
      ensures writeFailed ==> (status == Failed && errorMsg == ErrorMessage && email == old(email)
        && db.subscribers == old(db.subscribers))
      ensures !writeFailed ==> (status == Success && errorMsg == old(errorMsg) && email == ""
        && db.subscribers == UpsertSubscriberRows(old(db.subscribers), key))
    {
      if writeFailed {
        status := Failed;
        errorMsg := ErrorMessage;
      } else {
        db.UpsertSubscriber(key);
        status := Success;
        email := "";
      }
    }

    /** `handleSubmit` from start to end. */
    method HandleSubmit(db: Store, writeFailed: bool)
      requires db.Valid()
      modifies this`status, this`errorMsg, this`email, db`subscribers
      ensures db.Valid()
      ensures old(email) == [] ==> (status == old(status) && errorMsg == old(errorMsg) && email == old(email)
        && db.subscribers == old(db.subscribers))
      ensures old(email) != [] && writeFailed ==> (status == Failed && errorMsg == ErrorMessage
        && email == old(email) && db.subscribers == old(db.subscribers))
      ensures old(email) != [] && !writeFailed ==> (status == Success && errorMsg == "" && email == ""
        && db.subscribers == UpsertSubscriberRows(old(db.subscribers), Normalize(old(email))))
    {
      var key := BeginSubmit();
      if key.Some? {
        FinishSubmit(db, key.value, writeFailed);
      }
    }
  }
}
