/**
 * The decision of `verify_payment_ocr` on the text read from a payment
 * screenshot: the company's number must appear, the amount must appear,
 * and a transaction number is picked among the long digit runs.
 */
module Payment {
  import opened Wrappers
  import opened Text

  /** The company's payment number, the default of `company_phone`. */
  const COMPANY_PHONE: string := "37614881"

  /**
   * Where `re.findall(r"\d+", text[i..])` finds a run: a digit at `i`, or a
   * digit after a non-digit.
   */
  predicate RunStart(text: string, i: nat, p: int) {
    i <= p < |text| && IsDigit(text[p]) && (p == i || !IsDigit(text[p - 1]))
  }

  /** The run starts from `i` on: increasing, and every run start. */
  ghost function RunStarts(text: string, i: nat): (starts: seq<nat>)
    requires i <= |text|
    ensures forall m :: 0 <= m < |starts| ==> RunStart(text, i, starts[m])
    ensures forall m, n :: 0 <= m < n < |starts| ==> starts[m] < starts[n]
    ensures forall p :: RunStart(text, i, p) ==> p in starts
    decreases |text| - i
  {
    if i == |text| then []
    else if IsDigit(text[i]) then
      var j := SkipDigits(text, i);
      [i] + RunStarts(text, j)
    else
      RunStarts(text, i + 1)
  }

  /**
   * `re.findall(r"\d+", text[i..])`: the maximal digit runs, left to right,
   * one for each run start, each reaching to the next non-digit.
   */
  function DigitRunsFrom(text: string, i: nat): (runs: seq<string>)
    requires i <= |text|
    ensures forall k :: 0 <= k < |runs| ==> runs[k] != [] && AllDigits(runs[k]) && IsSubstring(runs[k], text)
    ensures var starts := RunStarts(text, i);
            |runs| == |starts| &&
            forall k :: 0 <= k < |runs| ==> runs[k] == text[starts[k]..SkipDigits(text, starts[k])]
    decreases |text| - i
  {
    if i == |text| then []
    else if IsDigit(text[i]) then
      var j := SkipDigits(text, i);
      assert OccursAt(text[i..j], text, i);
      [text[i..j]] + DigitRunsFrom(text, j)
    else DigitRunsFrom(text, i + 1)
  }

  /** Every digit at or after `i` lies inside the run of some run start, so no digit is missed. */
  lemma {:induction false} DigitInRun(text: string, i: nat, p: nat)
    requires i <= p < |text| && IsDigit(text[p])
    ensures exists q :: RunStart(text, i, q) && q <= p < SkipDigits(text, q)
    decreases p - i
  {
    if RunStart(text, i, p) {
      assert p < SkipDigits(text, p);
    } else {
      DigitInRun(text, i, p - 1);
      var q :| RunStart(text, i, q) && q <= p - 1 < SkipDigits(text, q);
      assert p < SkipDigits(text, q);
    }
  }

  function DigitRuns(text: string): seq<string> {
    DigitRunsFrom(text, 0)
  }

  /** A text that is one digit run is found whole. */
  lemma DigitRunsOfNumber(s: string)
    requires s != [] && AllDigits(s)
    ensures DigitRuns(s) == [s]
  {
    assert s[0..] == s;
    SkipDigitsToEnd(s, 0);
    assert IsDigit(s[0]);
    assert s[0..SkipDigits(s, 0)] == s;
    assert DigitRunsFrom(s, |s|) == [];
  }

  /** Text with no digit yields no run. */
  lemma {:induction false} DigitRunsNone(text: string, i: nat)
    requires i <= |text|
    requires forall k :: i <= k < |text| ==> !IsDigit(text[k])
    ensures DigitRunsFrom(text, i) == []
    decreases |text| - i
  {
    if i < |text| {
      DigitRunsNone(text, i + 1);
    }
  }

  /** `is_company_ok`: the number is one of the runs, or inside one of them. */
  predicate CompanyOk(phone: string, runs: seq<string>) {
    phone in runs || exists k :: 0 <= k < |runs| && IsSubstring(phone, runs[k])
  }

  /** The first test of `is_company_ok` is subsumed by the second. */
  lemma CompanyOkInsideRun(phone: string, runs: seq<string>)
    ensures CompanyOk(phone, runs) <==> exists k :: 0 <= k < |runs| && IsSubstring(phone, runs[k])
  {
    if phone in runs {
      var k :| 0 <= k < |runs| && runs[k] == phone;
      SubstringOfItself(phone);
    }
  }

  /** `is_amount_ok`: the amount's integer or rounded text inside a run, or its decimal text in the text. */
  predicate AmountOk(text: string, runs: seq<string>, amtMain: string, amtRounded: string, amtFloat: string) {
    (exists k :: 0 <= k < |runs| && IsSubstring(amtMain, runs[k])) ||
    (exists k :: 0 <= k < |runs| && IsSubstring(amtRounded, runs[k])) ||
    IsSubstring(amtFloat, text)
  }

  /** A run the comprehension keeps: long enough and not blocked. */
  predicate Eligible(x: string, minLen: nat, blocked: set<string>) {
    |x| >= minLen && x !in blocked
  }

  /** The positions, from `from` on, of the eligible runs: increasing, and every eligible position. */
  ghost function EligibleAt(runs: seq<string>, minLen: nat, blocked: set<string>, from: nat): (idx: seq<nat>)
    requires from <= |runs|
    ensures forall i :: 0 <= i < |idx| ==> from <= idx[i] < |runs| && Eligible(runs[idx[i]], minLen, blocked)
    ensures forall i, j :: 0 <= i < j < |idx| ==> idx[i] < idx[j]
    ensures forall k :: from <= k < |runs| && Eligible(runs[k], minLen, blocked) ==> k in idx
    decreases |runs| - from
  {
    if from == |runs| then []
    else (if Eligible(runs[from], minLen, blocked) then [from] else []) + EligibleAt(runs, minLen, blocked, from + 1)
  }

  /** `[n for n in runs[from..] if len(n) >= minLen and n not in blocked]`. */
  function CandidatesFrom(runs: seq<string>, minLen: nat, blocked: set<string>, from: nat): (c: seq<string>)
    requires from <= |runs|
    ensures var idx := EligibleAt(runs, minLen, blocked, from);
            |c| == |idx| && forall i :: 0 <= i < |c| ==> c[i] == runs[idx[i]]
    decreases |runs| - from
  {
    if from == |runs| then []
    else (if Eligible(runs[from], minLen, blocked) then [runs[from]] else []) + CandidatesFrom(runs, minLen, blocked, from + 1)
  }

  /**
   * The candidate list of `verify_payment_ocr`: the eligible runs, in the
   * order they occur. Ten digits with the phone and the amount blocked for
   * `candidates`, eight digits with the phone blocked for `fallback`.
   */
  function Candidates(runs: seq<string>, minLen: nat, blocked: set<string>): (c: seq<string>)
    ensures var idx := EligibleAt(runs, minLen, blocked, 0);
            |c| == |idx| && forall i :: 0 <= i < |c| ==> c[i] == runs[idx[i]]
  {
    CandidatesFrom(runs, minLen, blocked, 0)
  }

  /**
   * `max(c, key=len)`: the position of the first of the longest values,
   * scanning left to right and replacing only on a strictly longer value.
   */
  function LongestAt(c: seq<string>): (k: nat)
    requires c != []
    ensures k < |c|
    ensures forall j :: 0 <= j < |c| ==> |c[j]| <= |c[k]|
    ensures forall j :: 0 <= j < k ==> |c[j]| < |c[k]|
  {
    if |c| == 1 then 0
    else
      var k := LongestAt(c[..|c| - 1]);
      if |c[|c| - 1]| > |c[k]| then |c| - 1 else k
  }

  function Longest(c: seq<string>): (r: string)
    requires c != []
    ensures r in c && forall x :: x in c ==> |x| <= |r|
  {
    c[LongestAt(c)]
  }

  /**
   * `runs[k]` is what `max(candidates, key=len)` picks: eligible, at least as
   * long as every eligible run, and strictly longer than every earlier one.
   */
  predicate FirstLongest(runs: seq<string>, k: int, minLen: nat, blocked: set<string>) {
    0 <= k < |runs| && Eligible(runs[k], minLen, blocked) &&
    (forall j :: 0 <= j < |runs| && Eligible(runs[j], minLen, blocked) ==> |runs[j]| <= |runs[k]|) &&
    (forall j :: 0 <= j < k && Eligible(runs[j], minLen, blocked) ==> |runs[j]| < |runs[k]|)
  }

  /** There is a candidate iff some run is eligible. */
  lemma CandidatesEmpty(runs: seq<string>, minLen: nat, blocked: set<string>)
    ensures Candidates(runs, minLen, blocked) != [] <==> exists k :: 0 <= k < |runs| && Eligible(runs[k], minLen, blocked)
  {
    var idx := EligibleAt(runs, minLen, blocked, 0);
    if idx != [] {
      assert Eligible(runs[idx[0]], minLen, blocked);
    }
  }

  /** `max(candidates, key=len)` is the first of the longest eligible runs. */
  lemma LongestCandidate(runs: seq<string>, minLen: nat, blocked: set<string>)
    requires Candidates(runs, minLen, blocked) != []
    ensures exists k :: FirstLongest(runs, k, minLen, blocked) && runs[k] == Longest(Candidates(runs, minLen, blocked))
  {
    var c := Candidates(runs, minLen, blocked);
    var idx := EligibleAt(runs, minLen, blocked, 0);
    var i := LongestAt(c);
    var k := idx[i];
    forall j | 0 <= j < |runs| && Eligible(runs[j], minLen, blocked)
      ensures |runs[j]| <= |runs[k]| && (j < k ==> |runs[j]| < |runs[k]|)
    {
      LongestPosition(c, runs, idx, i, j);
    }
    assert FirstLongest(runs, k, minLen, blocked);
  }

  /**
   * If `c` lists `runs` at the increasing positions `idx`, and `c[i]` is the
   * first longest of `c`, then `runs[idx[i]]` is at least as long as any
   * listed run and strictly longer than any listed earlier.
   */
  lemma LongestPosition(c: seq<string>, runs: seq<string>, idx: seq<nat>, i: nat, j: nat)
    requires |c| == |idx| && i < |c| && j in idx
    requires forall m :: 0 <= m < |c| ==> idx[m] < |runs| && c[m] == runs[idx[m]]
    requires forall m, n :: 0 <= m < n < |idx| ==> idx[m] < idx[n]
    requires forall m :: 0 <= m < |c| ==> |c[m]| <= |c[i]|
    requires forall m :: 0 <= m < i ==> |c[m]| < |c[i]|
    ensures j < |runs| && |runs[j]| <= |runs[idx[i]]| && (j < idx[i] ==> |runs[j]| < |runs[idx[i]]|)
  {
    var m :| 0 <= m < |idx| && idx[m] == j;
    assert c[m] == runs[j];
    if j < idx[i] {
      assert m < i;
    }
  }

  /**
   * The transaction number: the first of the longest runs of at least ten
   * digits that are neither the phone nor the amount, else the first of
   * the longest runs of at least eight digits other than the phone, else
   * none.
   */
  function TransactionId(runs: seq<string>, phone: string, amtMain: string, amtRounded: string): (tx: Option<string>)
    ensures tx.Some? ==> tx.value in runs && |tx.value| >= 8 && tx.value != phone
    ensures tx.None? <==> forall k :: 0 <= k < |runs| ==> |runs[k]| < 8 || runs[k] == phone
    ensures (exists k :: 0 <= k < |runs| && Eligible(runs[k], 10, {phone, amtMain, amtRounded})) ==>
              tx.Some? && exists k :: FirstLongest(runs, k, 10, {phone, amtMain, amtRounded}) && tx.value == runs[k]
    ensures (forall k :: 0 <= k < |runs| ==> !Eligible(runs[k], 10, {phone, amtMain, amtRounded})) && tx.Some? ==>
              exists k :: FirstLongest(runs, k, 8, {phone}) && tx.value == runs[k]
  {
    var c := Candidates(runs, 10, {phone, amtMain, amtRounded});
    CandidatesEmpty(runs, 10, {phone, amtMain, amtRounded});
    if c != [] then
      LongestCandidate(runs, 10, {phone, amtMain, amtRounded});
      Some(Longest(c))
    else
      var f := Candidates(runs, 8, {phone});
      CandidatesEmpty(runs, 8, {phone});
      if f != [] then
        LongestCandidate(runs, 8, {phone});
        Some(Longest(f))
      else None
  }

  datatype Verdict = Verdict(ok: bool, transactionId: Option<string>)

  /**
   * `verify_payment_ocr` given the text read from the image (`None` when
   * no image was sent) and the texts of the expected amount.
   */
  function VerifyPayment(image: Option<string>, phone: string, amtMain: string, amtRounded: string, amtFloat: string)
    : (v: Verdict)
    ensures image.None? ==> v == Verdict(false, None)
    ensures v.ok <==> image.Some? && v.transactionId.Some? &&
                      CompanyOk(phone, DigitRuns(image.value)) &&
                      AmountOk(image.value, DigitRuns(image.value), amtMain, amtRounded, amtFloat)
    ensures image.Some? ==> v.transactionId == TransactionId(DigitRuns(image.value), phone, amtMain, amtRounded)
  {
    match image
    case None => Verdict(false, None)
    case Some(text) =>
      var runs := DigitRuns(text);
      var tx := TransactionId(runs, phone, amtMain, amtRounded);
      Verdict(CompanyOk(phone, runs) && AmountOk(text, runs, amtMain, amtRounded, amtFloat) && tx.Some?, tx)
  }

  /**
   * An accepted screenshot shows the company's number inside one of its
   * digit runs, and its transaction number is another digit run of the
   * text, of at least eight digits.
   */
  lemma AcceptedPayment(text: string, phone: string, amtMain: string, amtRounded: string, amtFloat: string)
    requires VerifyPayment(Some(text), phone, amtMain, amtRounded, amtFloat).ok
    ensures var v := VerifyPayment(Some(text), phone, amtMain, amtRounded, amtFloat);
            v.transactionId.Some? && v.transactionId.value != phone &&
            |v.transactionId.value| >= 8 && AllDigits(v.transactionId.value) &&
            IsSubstring(v.transactionId.value, text)
    ensures exists k :: 0 <= k < |DigitRuns(text)| && IsSubstring(phone, DigitRuns(text)[k])
  {
    CompanyOkInsideRun(phone, DigitRuns(text));
  }
}
