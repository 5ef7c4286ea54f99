/** The `MotorBase.__init_subclass__` check of tmp/motors/__init__.py. */
module TmpMotors {
  import opened Wrappers

  /** Defining a subclass with the given direct bases (`cls.__bases__`, by
      name): fewer than two is an AttributeError, anything else is accepted.
      Nothing is recorded either way, so the only outcome is the verdict. */
  function AcceptSubclass(bases: seq<string>): (r: Result<()>)
    ensures r.Ok? <==> |bases| >= 2
    ensures r.Err? ==> r.error.AttributeError?
  {
    if |bases| < 2 then Err(AttributeError("motor objects inheriting from MotorBase must also inherit from a base motor class"))
    else Ok(())
  }

  /** Only the number of direct bases matters, not which classes they are. */
  lemma OnlyCountMatters(a: seq<string>, b: seq<string>)
    requires |a| == |b|
    ensures AcceptSubclass(a) == AcceptSubclass(b)
  {
  }
}
