/** The evaluation channel through which a gatherer runs its extraction
    procedure against the page. The transport itself is external; only what
    it hands back is modelled. */
module Channel {
  import opened Wrappers

  /** An element handle; what it points at is opaque to the model. */
  datatype Node = Node(handle: nat)

  /** One control selected by `input, select, textarea`, read through the DOM. */
  datatype Element = Element(
    nodeName: string,
    id: string,
    name: string,
    inputType: string,
    autocomplete: string,
    placeholder: string,           // meaningful only where the element has the property
    enclosingForm: Option<Node>)   // `element.closest('form')`

  /** One attribute, in source order. */
  datatype Attribute = Attribute(name: string, value: string)

  /** One `<meta>` element, known only by its attribute list. */
  datatype MetaElement = MetaElement(attributes: seq<Attribute>)

  /** What `getElementsInDocument` selects for each query, in document order. */
  datatype Document = Document(formControls: seq<Element>, headMetas: seq<MetaElement>)

  /** The evaluation target: a settled document, or one the channel cannot reach. */
  datatype Target = Attached(document: Document) | Detached(reason: string)

  /** The settled promise returned by `driver.evaluateAsync`. */
  datatype Evaluation<+T> = Resolved(value: T) | Rejected(reason: string)

  /** Runs a self-contained procedure against the target: a detached target
      rejects with its own reason, and a procedure that throws rejects with
      the thrown error. */
  function Evaluate<T>(target: Target, procedure: Document -> Result<T, string>): (r: Evaluation<T>)
    ensures r.Resolved? <==> target.Attached? && procedure(target.document).Success?
    ensures r.Resolved? ==> r.value == procedure(target.document).value
    ensures target.Detached? ==> r == Rejected(target.reason)
    ensures target.Attached? && procedure(target.document).Failure? ==>
              r == Rejected(procedure(target.document).error)
  {
    match target
    case Detached(reason) => Rejected(reason)
    case Attached(document) =>
      match procedure(document)
      case Success(v) => Resolved(v)
      case Failure(e) => Rejected(e)
  }
}
