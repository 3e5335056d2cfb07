/**
 * The voice confirmation of a pending event: the question spoken for each
 * event type, and the decision taken from how the speech round ended. Only a
 * first recognised phrase containing "yes" or "yeah" (after lower-casing)
 * confirms; every other ending, including every failure, rejects.
 *
 * Text-to-speech and the recogniser are outside the model: their outcome is
 * the value RecognitionOutcome.
 */
module ConfirmationDialog {
  import opened RoadTypes

  /** The question spoken for an event. */
  function Question(t: EventType): string
  {
    match t
    case POTHOLE => "Was it a pothole?"
    case SPEED_BREAKER => "Was it a speed breaker?"
    case MULTIPLE_SPEED_BREAKERS => "Were there multiple speed breakers?"
    case _ => "Was it a road event?"
  }

  /** Every event type is asked about with its own question. */
  lemma QuestionsAreDistinct(t1: EventType, t2: EventType)
    requires t1 != t2
    ensures Question(t1) != Question(t2)
  {
  }

  /** Lower-casing of one character, for the letters A to Z. */
  function LowerChar(c: char): (r: char)
    ensures 'A' <= c <= 'Z' ==> 'a' <= r <= 'z' && r as int - c as int == 'a' as int - 'A' as int
    ensures !('A' <= c <= 'Z') ==> r == c
  {
    if 'A' <= c <= 'Z' then (c as int - 'A' as int + 'a' as int) as char else c
  }

  function Lowercase(s: string): (r: string)
    ensures |r| == |s|
    ensures forall i :: 0 <= i < |s| ==> r[i] == LowerChar(s[i])
  {
    if s == [] then [] else [LowerChar(s[0])] + Lowercase(s[1..])
  }

  /** Lower-casing twice changes nothing more. */
  lemma LowercaseIdempotent(s: string)
    ensures Lowercase(Lowercase(s)) == Lowercase(s)
  {
    var once := Lowercase(s);
    assert forall i :: 0 <= i < |s| ==> LowerChar(once[i]) == once[i];
  }

  /** Whether sub occurs in s at position i. */
  predicate OccursAt(s: string, sub: string, i: int)
  {
    0 <= i <= |s| - |sub| && s[i..i + |sub|] == sub
  }

  /** Substring search, scanning s from the left. */
  predicate Contains(s: string, sub: string)
    decreases |s|
  {
    if |sub| > |s| then false
    else s[..|sub|] == sub || (s != [] && Contains(s[1..], sub))
  }

  /** The scan finds sub exactly when sub occurs somewhere in s. */
  lemma {:induction false} ContainsIffOccurs(s: string, sub: string)
    ensures Contains(s, sub) <==> exists i :: OccursAt(s, sub, i)
    decreases |s|
  {
    if |sub| <= |s| && s != [] {
      ContainsIffOccurs(s[1..], sub);
      if Contains(s, sub) {
        if s[..|sub|] == sub {
          assert OccursAt(s, sub, 0);
        } else {
          var j :| OccursAt(s[1..], sub, j);
          assert s[1..][j..j + |sub|] == s[j + 1..j + 1 + |sub|];
          assert OccursAt(s, sub, j + 1);
        }
      }
      if exists i :: OccursAt(s, sub, i) {
        var i :| OccursAt(s, sub, i);
        if i > 0 {
          assert s[1..][i - 1..i - 1 + |sub|] == s[i..i + |sub|];
          assert OccursAt(s[1..], sub, i - 1);
        }
      }
    } else if |sub| <= |s| {
      assert OccursAt(s, sub, 0);
    }
  }

  /** Wherever "nope" occurs, "no" occurs too, so the second alternative of
      the rejecting branch can never decide anything on its own. */
  lemma NopeContainsNo(s: string)
    requires Contains(s, "nope")
    ensures Contains(s, "no")
  {
    ContainsIffOccurs(s, "nope");
    var i :| OccursAt(s, "nope", i);
    assert s[i..i + 2] == s[i..i + 4][..2];
    assert OccursAt(s, "no", i);
    ContainsIffOccurs(s, "no");
  }

  /** How one confirmation round ended. */
  datatype RecognitionOutcome =
    | Results(matches: Option<seq<string>>)  // the recogniser's result list, if the bundle held one
    | RecognitionError(code: int)            // the recogniser reported an error
    | SpeechError                            // the question could not be spoken
    | ListenFailed                           // the recogniser could not be started

  /** The decision passed to the confirmation callback. */
  function Answer(outcome: RecognitionOutcome): bool
  {
    match outcome
    case Results(matches) =>
      if matches.Some? && |matches.value| > 0 then
        var response := Lowercase(matches.value[0]);
        if Contains(response, "yes") || Contains(response, "yeah") then true
        else if Contains(response, "no") || Contains(response, "nope") then false
        else false
      else false
    case RecognitionError(_) => false
    case SpeechError => false
    case ListenFailed => false
  }

  /** A round confirms exactly when the recogniser returned a non-empty list
      whose first phrase, lower-cased, contains "yes" or "yeah". */
  lemma ConfirmsExactlyOnYes(outcome: RecognitionOutcome)
    ensures Answer(outcome) <==>
              && outcome.Results?
              && outcome.matches.Some?
              && |outcome.matches.value| > 0
              && (Contains(Lowercase(outcome.matches.value[0]), "yes")
                  || Contains(Lowercase(outcome.matches.value[0]), "yeah"))
  {
  }

  /** Every failure, and an empty or missing result list, rejects. */
  lemma FailuresReject(outcome: RecognitionOutcome)
    requires !outcome.Results? || outcome.matches.None? || outcome.matches.value == []
    ensures !Answer(outcome)
  {
  }

  /** A phrase with both a yes and a no in it confirms: yes is checked first. */
  lemma YesWinsOverNo(phrase: string, rest: seq<string>)
    requires Contains(Lowercase(phrase), "yes") && Contains(Lowercase(phrase), "no")
    ensures Answer(Results(Some([phrase] + rest)))
  {
  }

  /** Only the first phrase counts: a yes in a later alternative does not
      confirm. */
  lemma OnlyFirstPhraseCounts(first: string, rest: seq<string>)
    requires !Contains(Lowercase(first), "yes") && !Contains(Lowercase(first), "yeah")
    ensures !Answer(Results(Some([first] + rest)))
  {
  }

  /** The decision ignores letter case: a first phrase and its lower-cased
      form are answered alike, so "YES", "Yes" and "yes" all confirm. */
  lemma AnswerIgnoresCase(phrase: string, rest: seq<string>)
    ensures Answer(Results(Some([phrase] + rest))) == Answer(Results(Some([Lowercase(phrase)] + rest)))
  {
    LowercaseIdempotent(phrase);
  }
}
