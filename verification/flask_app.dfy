/**
 * The server's check of the parameters of a created or edited factory
 * (`complain_about_factory_params` in `flask_app.py`). The error message
 * sent back over the socket is modelled by which complaint it carries.
 */
module FlaskApp {
  import opened Wrappers
  import opened Python

  /** The four messages the check can send, in the order it tests for them. */
  datatype Complaint = BadParameterTypes | NameTooLong | LowerBoundOutOfBounds | UpperBoundOutOfBounds

  /** `type(name) == str`, `type(min_num) == int`, `type(max_num) == int`:
    * exact types, so a `bool` or a `str` subclass is refused. */
  predicate WellTyped(name: Py, minNum: Py, maxNum: Py)
  {
    name.PyStr? && minNum.PyInt? && maxNum.PyInt?
  }

  /** The lowest and highest value a factory may produce. */
  const MaxBound := 1000
  /** A name must be shorter than this many characters. */
  const NameLimit := 256

  /** The complaint sent, if any: the first failing check, and only that one. */
  function FirstComplaint(name: Py, minNum: Py, maxNum: Py): (r: Option<Complaint>)
    ensures r == Some(BadParameterTypes) <==> !WellTyped(name, minNum, maxNum)
    ensures r == Some(NameTooLong) <==> WellTyped(name, minNum, maxNum) && |name.s| >= NameLimit
    ensures r == Some(LowerBoundOutOfBounds) <==>
              WellTyped(name, minNum, maxNum) && |name.s| < NameLimit && !(0 <= minNum.i <= MaxBound)
    ensures r == Some(UpperBoundOutOfBounds) <==>
              WellTyped(name, minNum, maxNum) && |name.s| < NameLimit && 0 <= minNum.i <= MaxBound
              && !(minNum.i < maxNum.i <= MaxBound)
  {
    if !WellTyped(name, minNum, maxNum) then Some(BadParameterTypes)
    else if |name.s| >= NameLimit then Some(NameTooLong)
    else if minNum.i < 0 || minNum.i > MaxBound then Some(LowerBoundOutOfBounds)
    else if maxNum.i < 0 || maxNum.i > MaxBound || maxNum.i <= minNum.i then Some(UpperBoundOutOfBounds)
    else None
  }

  /** `complain_about_factory_params(name, min_num, max_num)`: true when it
    * complained. It accepts exactly a string name shorter than 256 characters
    * (the empty name included) and integer bounds with 0 <= min < max <= 1000. */
  function ComplainAboutFactoryParams(name: Py, minNum: Py, maxNum: Py): (r: bool)
    ensures !r <==> name.PyStr? && minNum.PyInt? && maxNum.PyInt?
                    && |name.s| < 256 && 0 <= minNum.i < maxNum.i <= 1000
  {
    FirstComplaint(name, minNum, maxNum).Some?
  }

  /** The empty name passes; a `bool` bound and a too-long name each fail, and a
    * too-long name with bad bounds is reported as too long. */
  lemma ComplaintExamples()
    ensures !ComplainAboutFactoryParams(PyStr(""), PyInt(0), PyInt(1))
    ensures FirstComplaint(PyStr("a"), PyBool(true), PyInt(5)) == Some(BadParameterTypes)
    ensures FirstComplaint(PyLiteral("a"), PyInt(1), PyInt(5)) == Some(BadParameterTypes)
    ensures FirstComplaint(PyStr(seq(256, _ => 'x')), PyInt(-1), PyInt(-1)) == Some(NameTooLong)
    ensures FirstComplaint(PyStr("a"), PyInt(1000), PyInt(1001)) == Some(UpperBoundOutOfBounds)
  {
  }
}
