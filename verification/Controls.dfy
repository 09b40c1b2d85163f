// The parts of the V4L2 control framework the sensor drivers lean on: integer
// controls of step 1. The framework itself is not part of the repository.
module Controls {
  import opened Wrappers

  datatype Control = Control(min: int, max: int, val: int)

  ghost predicate Valid(c: Control) {
    c.min <= c.val <= c.max
  }

  function Clamp(v: int, lo: int, hi: int): int {
    if v < lo then lo else if v > hi then hi else v
  }

  function Distance(a: int, b: int): nat {
    if a < b then b - a else a - b
  }

  // __v4l2_ctrl_modify_range: None is -ERANGE, with nothing changed; otherwise
  // the value goes to the nearest one in the new range.
  function ModifyRange(c: Control, min: int, max: int, def: int): (r: Option<Control>)
    ensures r.None? <==> !(min <= def <= max)
    ensures r.Some? ==> Valid(r.value) && r.value.min == min && r.value.max == max
    ensures r.Some? ==> forall v :: min <= v <= max ==> Distance(c.val, r.value.val) <= Distance(c.val, v)
  {
    if min > max || def < min || def > max then None
    else Some(Control(min, max, Clamp(c.val, min, max)))
  }

  // The new value of __v4l2_ctrl_s_ctrl.
  function Accepted(c: Control, v: int): (r: int)
    requires c.min <= c.max
    ensures c.min <= r <= c.max
  {
    Clamp(v, c.min, c.max)
  }
}
