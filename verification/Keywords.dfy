/** The words of the emitted SQL, their spelling and how they are recognized. */
module Keywords {
  import opened Common

  predicate IsLetter(c: char) {
    'A' <= c <= 'Z' || 'a' <= c <= 'z'
  }

  /** The words of the emitted SQL. */
  datatype Keyword =
    | KSelect | KFrom | KWhere | KGroup | KOrder | KBy | KAsc | KDesc
    | KLimit | KOffset | KRows | KFetch | KNext | KOnly | KAs | KDistinct
    | KCount | KSum | KAvg | KMin | KMax | KLower | KLike | KIn
    | KBetween | KAnd | KOr | KNot | KIs | KNull
  {
    function Text(): string {
      match this
      case KSelect => "SELECT"
      case KFrom => "FROM"
      case KWhere => "WHERE"
      case KGroup => "GROUP"
      case KOrder => "ORDER"
      case KBy => "BY"
      case KAsc => "ASC"
      case KDesc => "DESC"
      case KLimit => "LIMIT"
      case KOffset => "OFFSET"
      case KRows => "ROWS"
      case KFetch => "FETCH"
      case KNext => "NEXT"
      case KOnly => "ONLY"
      case KAs => "AS"
      case KDistinct => "DISTINCT"
      case KCount => "COUNT"
      case KSum => "SUM"
      case KAvg => "AVG"
      case KMin => "MIN"
      case KMax => "MAX"
      case KLower => "LOWER"
      case KLike => "LIKE"
      case KIn => "IN"
      case KBetween => "BETWEEN"
      case KAnd => "AND"
      case KOr => "OR"
      case KNot => "NOT"
      case KIs => "IS"
      case KNull => "NULL"
    }
  }

  function KeywordOf(text: string): Option<Keyword> {
    match |text|
    case 2 => Keyword2(text)
    case 3 => Keyword3(text)
    case 4 => Keyword4(text)
    case 5 => Keyword5(text)
    case 6 => Keyword6(text)
    case 7 => Keyword7(text)
    case 8 => Keyword8(text)
    case _ => None
  }

  function Keyword2(text: string): Option<Keyword> {
    if text == "BY" then Some(KBy)
    else if text == "AS" then Some(KAs)
    else if text == "IN" then Some(KIn)
    else if text == "OR" then Some(KOr)
    else if text == "IS" then Some(KIs)
    else None
  }

  function Keyword3(text: string): Option<Keyword> {
    if text == "ASC" then Some(KAsc)
    else if text == "SUM" then Some(KSum)
    else if text == "AVG" then Some(KAvg)
    else if text == "MIN" then Some(KMin)
    else if text == "MAX" then Some(KMax)
    else if text == "AND" then Some(KAnd)
    else if text == "NOT" then Some(KNot)
    else None
  }

  function Keyword4(text: string): Option<Keyword> {
    if text == "FROM" then Some(KFrom)
    else if text == "DESC" then Some(KDesc)
    else if text == "ROWS" then Some(KRows)
    else if text == "NEXT" then Some(KNext)
    else if text == "ONLY" then Some(KOnly)
    else if text == "LIKE" then Some(KLike)
    else if text == "NULL" then Some(KNull)
    else None
  }

  function Keyword5(text: string): Option<Keyword> {
    if text == "WHERE" then Some(KWhere)
    else if text == "GROUP" then Some(KGroup)
    else if text == "ORDER" then Some(KOrder)
    else if text == "LIMIT" then Some(KLimit)
    else if text == "FETCH" then Some(KFetch)
    else if text == "COUNT" then Some(KCount)
    else if text == "LOWER" then Some(KLower)
    else None
  }

  function Keyword6(text: string): Option<Keyword> {
    if text == "SELECT" then Some(KSelect)
    else if text == "OFFSET" then Some(KOffset)
    else None
  }

  function Keyword7(text: string): Option<Keyword> {
    if text == "BETWEEN" then Some(KBetween)
    else None
  }

  function Keyword8(text: string): Option<Keyword> {
    if text == "DISTINCT" then Some(KDistinct)
    else None
  }

  lemma KeywordReadsBack(k: Keyword)
    ensures KeywordOf(k.Text()) == Some(k)
  {
  }

  lemma KeywordLetters(k: Keyword)
    ensures k.Text() != "" && forall i :: 0 <= i < |k.Text()| ==> IsLetter(k.Text()[i])
  {
  }
}
