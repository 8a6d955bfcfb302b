/** The set of held keys (src/input_manager.rs). Piston's events are reduced
    to what the manager looks at: a keyboard press, a keyboard release, or
    anything else. */
module Input {
  datatype Key = Left | Right | Space | Other(code: nat)

  datatype Event = Press(key: Key) | Release(key: Key) | Ignored

  /** The held keys after one event: a press adds its key, a release removes
      it, every other event and every other key is left alone. */
  function AfterEvent(keys: set<Key>, ev: Event): (r: set<Key>)
    ensures ev.Press? ==> ev.key in r
    ensures ev.Release? ==> ev.key !in r
    ensures ev.Ignored? ==> r == keys
    ensures forall k :: (ev.Ignored? || k != ev.key) ==> (k in r <==> k in keys)
  {
    match ev
    case Press(k) => keys + {k}
    case Release(k) => keys - {k}
    case Ignored => keys
  }

  /** Pressing a key twice is pressing it once; releasing a key that is not
      held changes nothing. */
  lemma PressIdempotentReleaseAbsentNoop(keys: set<Key>, k: Key)
    ensures AfterEvent(AfterEvent(keys, Press(k)), Press(k)) == AfterEvent(keys, Press(k))
    ensures k !in keys ==> AfterEvent(keys, Release(k)) == keys
  {
  }

  class InputManager {
    var keys: set<Key>

    /** `InputManager::new`: nothing is held. */
    constructor ()
      ensures keys == {}
    {
      keys := {};
    }

    /** `key_pressed`: the key is held afterwards, the others are as before. */
    method KeyPressed(key: Key)
      modifies this
      ensures keys == old(keys) + {key}
    {
      keys := keys + {key};
    }

    /** `key_released`: the key is not held afterwards, the others are as before. */
    method KeyReleased(key: Key)
      modifies this
      ensures keys == old(keys) - {key}
    {
      keys := keys - {key};
    }

    predicate IsKeyPressed(key: Key)
      reads this
    {
      key in keys
    }

    /** `handle_event`: a keyboard press adds its key, a keyboard release removes it. */
    method HandleEvent(ev: Event)
      modifies this
      ensures keys == AfterEvent(old(keys), ev)
    {
      if ev.Press? {
        KeyPressed(ev.key);
      }
      if ev.Release? {
        KeyReleased(ev.key);
      }
    }
  }
}
