/** The in-progress record (the draft), the keystroke filter that guards its
    numeric fields, and the derived quantities computed from it. */
module Form {
  import opened Decimal

  /** The choices the form offers for the lot and the tape colour. */
  const LoteOptions: seq<string> := ["Lote 1", "Lote 2", "Lote 3", "Lote 4"]
  const ColorOptions: seq<string> :=
    ["Blanco", "Azul", "Dorado", "Gris", "Morado", "Café con Negro", "Naranja", "Verde", "Amarillo"]

  /** The `name` of the input that fired a change event. */
  datatype FieldName = Lote | Color | Prematuro | Presente | Novedades | Cosecha {
    /** Every field except the two selects goes through the numeric filter. */
    predicate IsNumeric() {
      this != Color && this != Lote
    }
  }

  /** `formData`: the six draft fields, all held as text. */
  datatype Draft = Draft(
    lote: string,
    color: string,
    prematuro: string,
    presente: string,
    novedades: string,
    cosecha: string)

  const InitialDraft: Draft := Draft("Lote 1", "Blanco", "", "", "", "")

  function Get(d: Draft, f: FieldName): string {
    match f
    case Lote => d.lote
    case Color => d.color
    case Prematuro => d.prematuro
    case Presente => d.presente
    case Novedades => d.novedades
    case Cosecha => d.cosecha
  }

  /** `{ ...prev, [name]: value }`. */
  function Set(d: Draft, f: FieldName, v: string): (r: Draft)
    ensures Get(r, f) == v
    ensures forall g :: g != f ==> Get(r, g) == Get(d, g)
  {
    match f
    case Lote => d.(lote := v)
    case Color => d.(color := v)
    case Prematuro => d.(prematuro := v)
    case Presente => d.(presente := v)
    case Novedades => d.(novedades := v)
    case Cosecha => d.(cosecha := v)
  }

  /** The draft invariant: each numeric field is text the pattern accepts. */
  predicate WellFormed(d: Draft) {
    && IsPartialDecimal(d.prematuro)
    && IsPartialDecimal(d.presente)
    && IsPartialDecimal(d.novedades)
    && IsPartialDecimal(d.cosecha)
  }

  /** handleInputChange: a numeric field refuses text outside `^\d*\.?\d*$`;
      otherwise the named field takes the value verbatim and nothing else moves. */
  function UpdateField(d: Draft, name: FieldName, value: string): (r: Draft)
    ensures name.IsNumeric() && !IsPartialDecimal(value) ==> r == d
    ensures !name.IsNumeric() || IsPartialDecimal(value) ==>
      Get(r, name) == value && forall g :: g != name ==> Get(r, g) == Get(d, g)
  {
    if name.IsNumeric() && !IsPartialDecimal(value) then d
    else Set(d, name, value)
  }

  lemma {:induction false} InitialDraftWellFormed()
    ensures WellFormed(InitialDraft)
    ensures InitialDraft.lote in LoteOptions && InitialDraft.color in ColorOptions
  {
    assert IsPartialDecimal("");
  }

  /** Whatever is typed, the draft keeps its invariant. */
  lemma {:induction false} UpdateFieldPreservesWellFormed(d: Draft, name: FieldName, value: string)
    requires WellFormed(d)
    ensures WellFormed(UpdateField(d, name, value))
  {
    var r := UpdateField(d, name, value);
    assert Get(r, Prematuro) == r.prematuro && Get(r, Presente) == r.presente;
    assert Get(r, Novedades) == r.novedades && Get(r, Cosecha) == r.cosecha;
  }

  /** The selects keep offering their own options: picking one of them keeps
      the lot and colour among the options. */
  lemma {:induction false} UpdateFieldKeepsOptions(d: Draft, name: FieldName, value: string)
    requires d.lote in LoteOptions && d.color in ColorOptions
    requires name == Lote ==> value in LoteOptions
    requires name == Color ==> value in ColorOptions
    ensures UpdateField(d, name, value).lote in LoteOptions
    ensures UpdateField(d, name, value).color in ColorOptions
  {
    var r := UpdateField(d, name, value);
    assert Get(r, Lote) == r.lote && Get(r, Color) == r.color;
    if name != Lote {
      assert Get(r, Lote) == Get(d, Lote);
    }
    if name != Color {
      assert Get(r, Color) == Get(d, Color);
    }
  }

  lemma {:induction false} UpdateFieldExamples(d: Draft)
    ensures UpdateField(d, Presente, "12.3.4") == d
    ensures UpdateField(d, Presente, "12.").presente == "12."
    ensures UpdateField(d, Cosecha, ".5").cosecha == ".5"
    ensures UpdateField(d, Novedades, "").novedades == ""
    ensures UpdateField(d, Lote, "12.3.4").lote == "12.3.4"
  {
    assert !IsPartialDecimal("12.3.4");
    assert IsPartialDecimal("12.") && IsPartialDecimal(".5") && IsPartialDecimal("");
  }

  /** `calculatedFields`. */
  datatype Derived = Derived(embolse: real, faltante: real)

  /** embolse = presente + novedades, faltante = embolse - cosecha, each field
      read with `parseFloat(x) || 0`. */
  function DerivedFields(d: Draft): (c: Derived)
    requires WellFormed(d)
    ensures c.embolse == ParseAmount(d.presente) + ParseAmount(d.novedades)
    ensures c.faltante == c.embolse - ParseAmount(d.cosecha)
    ensures c.embolse >= 0.0
    ensures c.embolse - c.faltante == ParseAmount(d.cosecha)
  {
    var presente := ParseAmount(d.presente);
    var novedades := ParseAmount(d.novedades);
    var cosecha := ParseAmount(d.cosecha);
    var embolse := presente + novedades;
    Derived(embolse, embolse - cosecha)
  }

  /** The derived values read only presente, novedades and cosecha. */
  lemma {:induction false} DerivedFieldsIgnoreOtherFields(d: Draft, lote: string, color: string, prematuro: string)
    requires WellFormed(d)
    requires IsPartialDecimal(prematuro)
    ensures WellFormed(d.(lote := lote, color := color, prematuro := prematuro))
    ensures DerivedFields(d.(lote := lote, color := color, prematuro := prematuro)) == DerivedFields(d)
  {
  }

  /** The draft after a commit: numeric fields emptied, lot and colour kept. */
  function ClearAmounts(d: Draft): (r: Draft)
    ensures WellFormed(r)
    ensures r.lote == d.lote && r.color == d.color
    ensures forall f: FieldName :: f.IsNumeric() ==> Get(r, f) == ""
  {
    var r := d.(prematuro := "", presente := "", novedades := "", cosecha := "");
    assert IsPartialDecimal("");
    r
  }

  /** An emptied draft derives zero for both quantities. */
  lemma {:induction false} DerivedFieldsOfClearedDraft(d: Draft)
    ensures DerivedFields(ClearAmounts(d)) == Derived(0.0, 0.0)
  {
    assert ParseFloat("").None?;
  }

  /** Whole counts add up: with presente p, novedades n and cosecha c written
      as digits, embolse is p + n and faltante is p + n - c. */
  lemma {:induction false} DerivedFieldsOfCounts(d: Draft, p: nat, n: nat, c: nat)
    requires WellFormed(d)
    requires d.presente == NatToString(p) && d.novedades == NatToString(n) && d.cosecha == NatToString(c)
    ensures DerivedFields(d) == Derived((p + n) as real, (p + n - c) as real)
  {
    NatToStringParses(p);
    NatToStringParses(n);
    NatToStringParses(c);
  }

  /** The draft of the worked example: presente 10, novedades 2, cosecha 9. */
  lemma {:induction false} DerivedFieldsExample()
    ensures WellFormed(Draft("Lote 2", "Azul", "", "10", "2", "9"))
    ensures DerivedFields(Draft("Lote 2", "Azul", "", "10", "2", "9")) == Derived(12.0, 3.0)
  {
    var d := Draft("Lote 2", "Azul", "", "10", "2", "9");
    assert NatToString(10) == "10" && NatToString(2) == "2" && NatToString(9) == "9";
    NatToStringParses(10);
    NatToStringParses(2);
    NatToStringParses(9);
    assert IsPartialDecimal("");
    DerivedFieldsOfCounts(d, 10, 2, 9);
  }
}
