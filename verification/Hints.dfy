/** Classification hints, as userspace compiles them and the datapath stores them. */
module Hints {

  datatype HintKind = NoKind | ExactKind | CategoryKind | UnclassifiedKind

  datatype Hint = Hint(classId: nat, categoryId: nat, kind: HintKind)

  const CLASS_DEFAULT := 0
  const CLASS_UNCLASSIFIED := 1

  function UnclassifiedHint(): Hint {
    Hint(CLASS_UNCLASSIFIED, 0, UnclassifiedKind)
  }
}
