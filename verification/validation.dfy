/**
 * What both request validators compute: a fixed list of field checks is run
 * in order and every failing check contributes its message; nothing stops at
 * the first failure.
 */
module Validation {

  /** One field check: whether it passed and the message reported if it did not. */
  datatype Check = Check(passed: bool, message: string)

  /** The messages of the failing checks, in the order the checks were run. */
  function Violations(checks: seq<Check>): (errors: seq<string>)
    ensures |errors| <= |checks|
    ensures errors == [] <==> forall i :: 0 <= i < |checks| ==> checks[i].passed
  {
    if checks == [] then []
    else (if checks[0].passed then [] else [checks[0].message]) + Violations(checks[1..])
  }

  /** The message a single check contributes: none, or its own. */
  function Reported(c: Check): seq<string> {
    if c.passed then [] else [c.message]
  }

  /** Running two lists of checks one after the other reports their messages one after the other. */
  lemma {:induction false} ViolationsAppend(a: seq<Check>, b: seq<Check>)
    ensures Violations(a + b) == Violations(a) + Violations(b)
  {
    if a == [] {
      assert a + b == b;
    } else {
      assert (a + b)[1..] == a[1..] + b;
      ViolationsAppend(a[1..], b);
    }
  }

  /**
   * Three checks report, in order, the message of the first if it failed,
   * then the second's, then the third's.
   */
  lemma ViolationsOfThree(c1: Check, c2: Check, c3: Check)
    ensures Violations([c1, c2, c3]) == Reported(c1) + Reported(c2) + Reported(c3)
  {
    forall c | c in [c1, c2, c3] ensures Violations([c]) == Reported(c) {
      assert [c][1..] == [];
    }
    assert [c1, c2, c3] == [c1] + [c2] + [c3];
    ViolationsAppend([c1] + [c2], [c3]);
    ViolationsAppend([c1], [c2]);
  }

  /** Among three checks with distinct messages, each message is reported exactly when its check fails. */
  lemma ViolationsOfThreeReport(c1: Check, c2: Check, c3: Check)
    requires c1.message != c2.message && c1.message != c3.message && c2.message != c3.message
    ensures c1.message in Violations([c1, c2, c3]) <==> !c1.passed
    ensures c2.message in Violations([c1, c2, c3]) <==> !c2.passed
    ensures c3.message in Violations([c1, c2, c3]) <==> !c3.passed
  {
    ViolationsOfThree(c1, c2, c3);
  }

  /** A message is reported exactly when some failing check carries it. */
  lemma {:induction false} ViolationsReport(checks: seq<Check>, m: string)
    ensures m in Violations(checks) <==>
            exists i :: 0 <= i < |checks| && !checks[i].passed && checks[i].message == m
  {
    if checks != [] {
      ViolationsReport(checks[1..], m);
      if m in Violations(checks[1..]) {
        var i :| 0 <= i < |checks[1..]| && !checks[1..][i].passed && checks[1..][i].message == m;
        assert !checks[i + 1].passed && checks[i + 1].message == m;
      }
      if exists i :: 0 <= i < |checks| && !checks[i].passed && checks[i].message == m {
        var i :| 0 <= i < |checks| && !checks[i].passed && checks[i].message == m;
        if i > 0 {
          assert checks[1..][i - 1] == checks[i];
        }
      }
    }
  }
}
