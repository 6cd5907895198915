/** String vocabulary shared by the help registry and the converter. */
module Strings {
  /** A Ruby symbol, represented by its name. */
  type Symbol = string

  /** `l` holds no line feed. */
  predicate NoNewline(l: string)
  {
    forall j :: 0 <= j < |l| ==> l[j] != '\n'
  }
}
