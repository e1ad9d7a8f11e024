/** The semantic roles of hostname tokens (src/intelligence.rs). */
module TokenKinds {

  datatype TokenKind = Service | Environment | Region | Cloud | Number | Word
  {
    predicate IsSemantic() { Service? || Environment? || Region? || Cloud? }

    function Tag(): string {
      match this
      case Service => "service"
      case Environment => "env"
      case Region => "region"
      case Cloud => "cloud"
      case Number => "number"
      case Word => "literal"
    }
  }

  lemma TagsDiffer(a: TokenKind, b: TokenKind)
    ensures a.Tag() == b.Tag() <==> a == b
  {
    assert a.Tag()[0] == b.Tag()[0] ==> a == b;
  }
}
