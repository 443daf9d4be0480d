/** The orders by which the source compares keys: text by code point, tuples column by column. */
module KeyOrder {
  /** a sorts before or with b. */
  predicate TextLe(a: string, b: string) {
    if a == [] then true
    else if b == [] then false
    else if a[0] != b[0] then a[0] < b[0]
    else TextLe(a[1..], b[1..])
  }

  lemma {:induction false} TextTotal(a: string, b: string)
    ensures TextLe(a, b) || TextLe(b, a)
  {
    if a != [] && b != [] && a[0] == b[0] {
      TextTotal(a[1..], b[1..]);
    }
  }

  lemma {:induction false} TextAntisymmetric(a: string, b: string)
    requires TextLe(a, b) && TextLe(b, a)
    ensures a == b
  {
    if a != [] && b != [] {
      TextAntisymmetric(a[1..], b[1..]);
      assert a == [a[0]] + a[1..] && b == [b[0]] + b[1..];
    }
  }

  lemma {:induction false} TextTransitive(a: string, b: string, c: string)
    requires TextLe(a, b) && TextLe(b, c)
    ensures TextLe(a, c)
  {
    if a != [] && b != [] && c != [] && a[0] == b[0] == c[0] {
      TextTransitive(a[1..], b[1..], c[1..]);
    }
  }

  /** One column of a primary key. */
  datatype Field = Number(n: int) | Text(s: string)

  predicate FieldLe(a: Field, b: Field) {
    match (a, b)
    case (Number(x), Number(y)) => x <= y
    case (Text(x), Text(y)) => TextLe(x, y)
    case (Number(_), Text(_)) => true
    case (Text(_), Number(_)) => false
  }

  lemma FieldLaws(a: Field, b: Field, c: Field)
    ensures FieldLe(a, b) || FieldLe(b, a)
    ensures FieldLe(a, b) && FieldLe(b, a) ==> a == b
    ensures FieldLe(a, b) && FieldLe(b, c) ==> FieldLe(a, c)
  {
    if a.Text? && b.Text? {
      TextTotal(a.s, b.s);
      if TextLe(a.s, b.s) && TextLe(b.s, a.s) {
        TextAntisymmetric(a.s, b.s);
      }
      if c.Text? && TextLe(a.s, b.s) && TextLe(b.s, c.s) {
        TextTransitive(a.s, b.s, c.s);
      }
    }
  }

  /** Primary keys compare column by column. */
  type Key = seq<Field>

  predicate KeyLt(a: Key, b: Key) {
    if b == [] then false
    else if a == [] then true
    else if a[0] != b[0] then FieldLe(a[0], b[0])
    else KeyLt(a[1..], b[1..])
  }

  lemma {:induction false} KeyTrichotomy(a: Key, b: Key)
    ensures KeyLt(a, b) || KeyLt(b, a) || a == b
    ensures !(KeyLt(a, b) && KeyLt(b, a)) && (a == b ==> !KeyLt(a, b))
  {
    if a != [] && b != [] {
      FieldLaws(a[0], b[0], a[0]);
      if a[0] == b[0] {
        KeyTrichotomy(a[1..], b[1..]);
        assert a == [a[0]] + a[1..] && b == [b[0]] + b[1..];
      }
    }
  }

  lemma {:induction false} KeyTransitive(a: Key, b: Key, c: Key)
    requires KeyLt(a, b) && KeyLt(b, c)
    ensures KeyLt(a, c)
  {
    if a != [] && b != [] && c != [] {
      FieldLaws(a[0], b[0], c[0]);
      FieldLaws(b[0], a[0], c[0]);
      FieldLaws(a[0], c[0], b[0]);
      FieldLaws(c[0], b[0], a[0]);
      if a[0] == b[0] == c[0] {
        KeyTransitive(a[1..], b[1..], c[1..]);
      }
    }
  }
}
