/**
 * Findings and the exit status derived from them (`Finding` and `print_findings` of
 * bmad/scripts/audit_workflow.py). A finding's `subject` is what its message names
 * (a key, a stage id, a field); the rest of the message text is rendering.
 */
module Findings {
  import opened Wrappers

  datatype Severity = Error | Warn | Info

  datatype Finding = Finding(severity: Severity, code: string, subject: string, ref: Option<string>)

  /** A finding that names the file it concerns. */
  function Err(code: string, subject: string, ref: string): Finding {
    Finding(Error, code, subject, Some(ref))
  }

  function Warning(code: string, subject: string, ref: string): Finding {
    Finding(Warn, code, subject, Some(ref))
  }

  predicate HasError(fs: seq<Finding>) {
    exists i :: 0 <= i < |fs| && fs[i].severity == Error
  }

  /** Number of findings of severity `sev`. */
  function Count(fs: seq<Finding>, sev: Severity): nat {
    if fs == [] then 0
    else Count(fs[..|fs| - 1], sev) + (if fs[|fs| - 1].severity == sev then 1 else 0)
  }

  /** Number of findings carrying `code`. */
  function CountCode(fs: seq<Finding>, code: string): nat {
    if fs == [] then 0
    else CountCode(fs[..|fs| - 1], code) + (if fs[|fs| - 1].code == code then 1 else 0)
  }

  lemma {:induction false} CountPositiveIffHasError(fs: seq<Finding>)
    ensures Count(fs, Error) > 0 <==> HasError(fs)
  {
    if fs != [] {
      var init := fs[..|fs| - 1];
      CountPositiveIffHasError(init);
      if HasError(init) {
        var i :| 0 <= i < |init| && init[i].severity == Error;
        assert fs[i] == init[i];
      }
      if HasError(fs) && fs[|fs| - 1].severity != Error {
        var i :| 0 <= i < |fs| && fs[i].severity == Error;
        assert init[i] == fs[i];
      }
    }
  }

  lemma {:induction false} CountSplit(fs: seq<Finding>)
    ensures Count(fs, Error) + Count(fs, Warn) + Count(fs, Info) == |fs|
  {
    if fs != [] {
      CountSplit(fs[..|fs| - 1]);
    }
  }

  lemma {:induction false} CountAppend(a: seq<Finding>, b: seq<Finding>, sev: Severity)
    ensures Count(a + b, sev) == Count(a, sev) + Count(b, sev)
    decreases |b|
  {
    if b == [] {
      assert a + b == a;
    } else {
      assert (a + b)[..|a + b| - 1] == a + b[..|b| - 1];
      CountAppend(a, b[..|b| - 1], sev);
    }
  }

  lemma {:induction false} CountCodeAppend(a: seq<Finding>, b: seq<Finding>, code: string)
    ensures CountCode(a + b, code) == CountCode(a, code) + CountCode(b, code)
    decreases |b|
  {
    if b == [] {
      assert a + b == a;
    } else {
      assert (a + b)[..|a + b| - 1] == a + b[..|b| - 1];
      CountCodeAppend(a, b[..|b| - 1], code);
    }
  }

  /** A positive count of `code` is witnessed by a finding carrying it. */
  lemma {:induction false} CountCodeWitness(fs: seq<Finding>, code: string)
    requires CountCode(fs, code) > 0
    ensures exists i :: 0 <= i < |fs| && fs[i].code == code
  {
    var init := fs[..|fs| - 1];
    if fs[|fs| - 1].code != code {
      CountCodeWitness(init, code);
      var i :| 0 <= i < |init| && init[i].code == code;
      assert fs[i] == init[i];
    }
  }

  /** No finding in `fs` carries `code`. */
  predicate Lacks(fs: seq<Finding>, code: string) {
    forall i :: 0 <= i < |fs| ==> fs[i].code != code
  }

  lemma {:induction false} LacksCountZero(fs: seq<Finding>, code: string)
    requires Lacks(fs, code)
    ensures CountCode(fs, code) == 0
  {
    if fs != [] {
      LacksCountZero(fs[..|fs| - 1], code);
    }
  }

  /**
   * `print_findings`: tallies the findings by severity and returns the exit status,
   * 1 exactly when some finding is an ERROR (WARN and INFO never fail the run).
   */
  method PrintFindings(findings: seq<Finding>) returns (exit: int, errors: nat, warnings: nat, infos: nat)
    ensures exit == (if HasError(findings) then 1 else 0)
    ensures errors == Count(findings, Error) && warnings == Count(findings, Warn) && infos == Count(findings, Info)
    ensures errors + warnings + infos == |findings|
  {
    errors, warnings, infos := 0, 0, 0;
    for i := 0 to |findings|
      invariant errors == Count(findings[..i], Error)
      invariant warnings == Count(findings[..i], Warn)
      invariant infos == Count(findings[..i], Info)
    {
      assert findings[..i + 1][..i] == findings[..i];
      match findings[i].severity
      case Error => errors := errors + 1;
      case Warn => warnings := warnings + 1;
      case Info => infos := infos + 1;
    }
    assert findings[..|findings|] == findings;
    CountPositiveIffHasError(findings);
    CountSplit(findings);
    exit := if errors > 0 then 1 else 0;
  }
}
