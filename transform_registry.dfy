/// The global table of transform plugins, filled by the registration
/// decorator as the plugin module is loaded.
module TransformRegistry {
  import opened Base

  /// The transform a factory builds; the closures themselves are the
  /// methods of module TransformPlugin.
  datatype Op =
    | Add | Sub | CumSum | SubMin | SubMax | SubMean | SubFrom
    | Mul | Div | DivMax | DivMean | DivStd | DivSum | NormRange
    | Log10 | Log | Exp | Exp10 | ExpV | Pow | Apply | Clip
    | Rotate | Translate | Thin | IndexRange

  /// A generic closure takes a role code; the X and Y variants are bound to
  /// the x or y slot.
  datatype Form = Generic | OnX | OnY

  datatype Factory = Factory(op: Op, form: Form)

  /// The registered tuple (factory, username, category, description).
  datatype Entry = Entry(factory: Factory, username: string, category: string, description: Option<string>)

  /// The operations that come only in a generic form.
  predicate SlotFree(op: Op) {
    op == Rotate || op == Translate || op == Thin || op == IndexRange
  }

  function OpName(op: Op): string {
    match op
    case Add => "Add"
    case Sub => "Sub"
    case CumSum => "CumSum"
    case SubMin => "SubMin"
    case SubMax => "SubMax"
    case SubMean => "SubMean"
    case SubFrom => "SubFrom"
    case Mul => "Mul"
    case Div => "Div"
    case DivMax => "DivMax"
    case DivMean => "DivMean"
    case DivStd => "DivStd"
    case DivSum => "DivSum"
    case NormRange => "NormRange"
    case Log10 => "Log10"
    case Log => "Log"
    case Exp => "Exp"
    case Exp10 => "Exp10"
    case ExpV => "ExpV"
    case Pow => "Pow"
    case Apply => "Apply"
    case Clip => "Clip"
    case Rotate => "Rotate"
    case Translate => "Translate"
    case Thin => "Thin"
    case IndexRange => "IndexRange"
  }

  /// The name under which a built-in factory is registered: the operation,
  /// followed by X or Y for the variants bound to a slot.
  function Name(f: Factory): (n: string)
    requires SlotFree(f.op) ==> f.form == Generic
    ensures f.form == Generic ==> n == OpName(f.op)
    ensures f.form != Generic ==> |n| == |OpName(f.op)| + 1 && n[..|n| - 1] == OpName(f.op)
    ensures f.form == OnX ==> n[|n| - 1] == 'X'
    ensures f.form == OnY ==> n[|n| - 1] == 'Y'
  {
    OpName(f.op) + match f.form
      case Generic => ""
      case OnX => "X"
      case OnY => "Y"
  }

  class Registry {
    var entries: map<string, Entry>

    constructor ()
      ensures entries == map[]
    {
      entries := map[];
    }

    /// registerTransformPlugin: a later registration under the same name
    /// replaces the earlier one; the category defaults to "Base".  A lookup
    /// of the name then yields the new tuple, and every other name yields
    /// what it did before.
    method Register(name: string, factory: Factory, username: string, category: string, description: Option<string>)
      modifies this
      ensures entries == old(entries)[name := Entry(factory, username, category, description)]
      ensures Get(name) == Some(Entry(factory, username, category, description))
      ensures forall other :: other != name ==> Get(other) == old(Get(other))
    {
      entries := entries[name := Entry(factory, username, category, description)];
    }

    /// Looking a name up in the table; None where Python raises KeyError.
    function Get(name: string): (r: Option<Entry>)
      reads this
      ensures r.Some? <==> name in entries
      ensures r.Some? ==> r.value == entries[name]
    {
      if name in entries then Some(entries[name]) else None
    }
  }

  /// The X and Y variants of an operation are registered under names
  /// distinct from each other and from the generic one.
  lemma {:induction false} VariantNamesDistinct(op: Op)
    requires !SlotFree(op)
    ensures Name(Factory(op, Generic)) != Name(Factory(op, OnX))
    ensures Name(Factory(op, Generic)) != Name(Factory(op, OnY))
    ensures Name(Factory(op, OnX)) != Name(Factory(op, OnY))
  {
    var x := Name(Factory(op, OnX));
    var y := Name(Factory(op, OnY));
    assert x[|x| - 1] != y[|y| - 1];
  }
}
