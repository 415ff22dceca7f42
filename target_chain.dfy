/** `TargetChain` (`crates/bevy_vrm/src/animations/target_chain.rs`): a
    growing list of node names from which animation target ids are made. */
module TargetChains {

  /** `AnimationTargetId::from_names`: the id of the entity reached by a path
      of names. The hash is abstracted away; the id is identified with the
      path it was made from, so two ids are equal exactly when their paths are. */
  datatype AnimationTargetId = TargetId(path: seq<string>)

  /** A chain of names; `prefix` is put before every pushed name. */
  class TargetChain {
    var names: seq<string>
    var prefix: string

    /** `TargetChain::default()`. */
    constructor ()
      ensures names == [] && prefix == ""
    {
      names := [];
      prefix := "";
    }

    /** `#[derive(Clone)]`: a new chain with the same names and prefix. */
    constructor Clone(other: TargetChain)
      ensures names == other.names && prefix == other.prefix
    {
      names := other.names;
      prefix := other.prefix;
    }

    /** `target()`: the id of the current list of names; it reads the names
        only and changes nothing. */
    function Target(): (id: AnimationTargetId)
      reads this
      ensures id.path == names
    {
      TargetId(names)
    }

    /** `push_target(name)`: appends `prefix + name`, keeps every earlier
        name and the prefix, and returns the id of the extended list. */
    method PushTarget(name: string) returns (id: AnimationTargetId)
      modifies this
      ensures names == old(names) + [old(prefix) + name]
      ensures prefix == old(prefix)
      ensures names[..|old(names)|] == old(names)
      ensures id == Target()
    {
      names := names + [prefix + name];
      id := Target();
    }
  }
}
