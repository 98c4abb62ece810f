/** The polled keyboard state: one level per logical action, written by the key
    listeners through ParseKey and promoted once per frame by Advance. */
module Controls {

  /** The fields of the global `input` object. */
  datatype Action = Forward | Backward | Left | Right | Shift | Interact | Space

  const Actions: set<Action> := {Forward, Backward, Left, Right, Shift, Interact, Space}

  /** Key levels: released, pressed during the last frame, held for longer. */
  const Released := 0
  const Pressed := 1
  const Held := 2

  /** The key names the listeners react to, and the field each one writes. */
  const Bindings: map<string, Action> := map[
    "w" := Forward, "W" := Forward,
    "a" := Left, "A" := Left,
    "s" := Backward, "S" := Backward,
    "d" := Right, "D" := Right,
    "f" := Interact, "F" := Interact,
    " " := Space,
    "Shift" := Shift]

  /** The levels after one frame: every just-pressed key counts as held. */
  function Promoted(levels: map<Action, int>): (r: map<Action, int>)
    ensures r.Keys == levels.Keys
    ensures forall a :: a in levels && levels[a] == Pressed ==> r[a] == Held
    ensures forall a :: a in levels && levels[a] != Pressed ==> r[a] == levels[a]
  {
    map a | a in levels :: if levels[a] == Pressed then Held else levels[a]
  }

  /** After a promotion no key is left at the just-pressed level, so promoting
      twice is the same as promoting once. */
  lemma PromotedIdempotent(levels: map<Action, int>)
    ensures forall a :: a in Promoted(levels) ==> Promoted(levels)[a] != Pressed
    ensures Promoted(Promoted(levels)) == Promoted(levels)
  {
    var once := Promoted(levels);
    assert forall a :: a in once ==> once[a] != Pressed;
    assert Promoted(once).Keys == once.Keys;
  }

  class Input {
    var levels: map<Action, int>

    ghost predicate Valid()
      reads this
    {
      levels.Keys == Actions
    }

    /** Every field starts released. */
    constructor ()
      ensures Valid()
      ensures forall a :: a in levels ==> levels[a] == Released
    {
      levels := map a | a in Actions :: Released;
    }

    /** JavaScript truthiness of a field: any level but released. */
    predicate Down(a: Action)
      reads this
    {
      a in levels && levels[a] != Released
    }

    /** advanceInput: walks every field and turns the level 1 into 2. */
    method Advance()
      requires Valid()
      modifies this
      ensures Valid()
      ensures levels == Promoted(old(levels))
    {
      var pending := levels.Keys;
      while pending != {}
        invariant pending <= levels.Keys == old(levels).Keys
        invariant forall a :: a in levels && a in pending ==> levels[a] == old(levels)[a]
        invariant forall a :: a in levels && a !in pending ==> levels[a] == Promoted(old(levels))[a]
        decreases pending
      {
        var a :| a in pending;
        if levels[a] == Pressed {
          levels := levels[a := Held];
        }
        pending := pending - {a};
      }
    }

    /** parseInputKey: a bound key writes `value` into its one field and is
        reported as handled; any other key changes nothing. */
    method ParseKey(key: string, value: int) returns (handled: bool)
      requires Valid()
      modifies this
      ensures Valid()
      ensures handled <==> key in Bindings
      ensures handled ==> levels == old(levels)[Bindings[key] := value]
      ensures !handled ==> levels == old(levels)
    {
      match key {
        case "w" => levels := levels[Forward := value];
        case "W" => levels := levels[Forward := value];
        case "a" => levels := levels[Left := value];
        case "A" => levels := levels[Left := value];
        case "s" => levels := levels[Backward := value];
        case "S" => levels := levels[Backward := value];
        case "d" => levels := levels[Right := value];
        case "D" => levels := levels[Right := value];
        case "f" => levels := levels[Interact := value];
        case "F" => levels := levels[Interact := value];
        case " " => levels := levels[Space := value];
        case "Shift" => levels := levels[Shift := value];
        case _ => return false;
      }
      return true;
    }
  }
}
