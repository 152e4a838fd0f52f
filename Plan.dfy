/**
 * The edit plan the language model returns and both executors read: an
 * object with an "actions" array.  A JSON key that is absent (or null)
 * is `None`; strings are compared with Python's truthiness, so an empty
 * string counts as absent wherever the executors test `if value`.
 */
module Plan {
  import opened Wrappers

  /** One entry of a concat action's "segments": a file under `temp/` and its place in the result. */
  datatype SegmentRef = SegmentRef(file: Option<string>, position: Option<real>)

  /** The effect parameters the linear executor reads from an action's "params". */
  datatype Params = Params(
    width: Option<int>,
    height: Option<int>,
    x: Option<int>,
    y: Option<int>,
    path: Option<string>,
    scale: Option<real>,
    text: Option<string>,
    position: Option<string>,
    amount: Option<int>)

  /** An action object; `kind` is its "type" key. */
  datatype Action = Action(
    kind: Option<string>,
    start: Option<string>,
    end: Option<string>,
    output: Option<string>,
    segments: Option<seq<SegmentRef>>,
    params: Params)

  datatype EditPlan = EditPlan(actions: Option<seq<Action>>)

  /** `edit_plan.get("actions", [])`. */
  function Actions(plan: EditPlan): seq<Action>
  {
    if plan.actions.Some? then plan.actions.value else []
  }

  /** Python truthiness of an optional string: present and non-empty. */
  predicate Present(s: Option<string>)
  {
    s.Some? && s.value != ""
  }

  /** Python truthiness of an optional number: present and non-zero. */
  predicate NonZero(n: Option<int>)
  {
    n.Some? && n.value != 0
  }

  /** `d.get(key, default)` for the optional fields above. */
  function IntOr(n: Option<int>, default: int): int
  {
    if n.Some? then n.value else default
  }

  function RealOr(n: Option<real>, default: real): real
  {
    if n.Some? then n.value else default
  }

  function StringOr(s: Option<string>, default: string): string
  {
    if s.Some? then s.value else default
  }

  /** The file name `output_<8 hex digits>.mp4` used when the caller passes no output path. */
  function OutputPath(requested: Option<string>, hex8: string): (r: string)
    ensures r != ""
  {
    if Present(requested) then requested.value else "output_" + hex8 + ".mp4"
  }
}
