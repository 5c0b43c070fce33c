/** Values shared by every part of the model. */
module Common {
  datatype Option<+T> = None | Some(value: T)

  /** A module handle is the module's base address; nullptr is 0. */
  type Handle = nat
  const NULL: Handle := 0

  /** `uintptr_t` of the 32-bit build. */
  const ADDRESS_SPACE: nat := 0x1_0000_0000
  type Address = a: nat | a < ADDRESS_SPACE

  /** `std::unordered_map<std::string, uintptr_t>` */
  type Symbols = map<string, Address>

  function Elements<T>(s: seq<T>): set<T> {
    set x | x in s
  }

  ghost predicate NoDuplicates<T>(s: seq<T>) {
    forall i, j :: 0 <= i < j < |s| ==> s[i] != s[j]
  }

  lemma NoDuplicatesSnoc<T>(s: seq<T>, x: T)
    requires NoDuplicates(s) && x !in s
    ensures NoDuplicates(s + [x])
  {
  }
}
