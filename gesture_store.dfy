/**
  The example store of api/server.js: POST /gestos validates a body and
  appends it to the stored array, GET /gestos returns the array. The file
  gestos.txt is an in-memory document.
 */
module GestureStore {
  import opened Numeric

  /** One stored example, `{label, idioma, vetor}` as the handler builds it (`label` is `name` here). */
  datatype Record = Record(name: string, idioma: Option<string>, vetor: seq<Num>)

  /** A POST body; each field may be missing. */
  datatype Request = Request(name: Option<string>, idioma: Option<string>, vetor: Option<seq<Num>>)

  datatype Response =
    | Rejected(status: nat, erro: string)
    | Saved(mensagem: string, total: nat)

  const BadRequest: nat := 400
  const Incomplete := "Dados incompletos."
  const SavedMessage := "Gesto salvo com sucesso!"

  /** `!label || !vetor` fails: the label is present and non-empty and the vector present (an empty array counts). */
  predicate Complete(req: Request) {
    req.name.Some? && req.name.value != "" && req.vetor.Some?
  }

  function RecordOf(req: Request): Record
    requires Complete(req)
  {
    Record(req.name.value, req.idioma, req.vetor.value)
  }

  class Store {
    /** The parsed gestos.txt, None while the file does not exist; an empty file reads as []. */
    var document: Option<seq<Record>>

    /** What a read of the file yields. */
    function Contents(): seq<Record>
      reads this
    {
      document.GetOr([])
    }

    constructor ()
      ensures document == None && Contents() == []
    {
      document := None;
    }

    /** The POST /gestos handler: validate, read, push, write back, report the total. */
    method Post(req: Request) returns (res: Response)
      modifies this
      ensures !Complete(req) ==> res == Rejected(BadRequest, Incomplete) && document == old(document)
      ensures Complete(req) ==>
        && Contents() == old(Contents()) + [RecordOf(req)]
        && document.Some?
        && res == Saved(SavedMessage, |Contents()|)
        && res.total == |old(Contents())| + 1
    {
      if !(req.name.Some? && req.name.value != "" && req.vetor.Some?) {
        return Rejected(BadRequest, Incomplete);
      }
      var gestos: seq<Record> := [];
      if document.Some? {
        gestos := document.value;
      }
      gestos := gestos + [Record(req.name.value, req.idioma, req.vetor.value)];
      document := Some(gestos);
      res := Saved(SavedMessage, |gestos|);
    }

    /** The GET /gestos handler. */
    method Get() returns (gestos: seq<Record>)
      ensures gestos == Contents()
      ensures document.None? ==> gestos == []
    {
      if document.None? {
        return [];
      }
      gestos := document.value;
    }
  }

  /**
    A client of the two handlers: after a successful POST, GET lists every
    earlier record unchanged and the posted one last.
   */
  method PostThenGet(store: Store, req: Request) returns (res: Response, listed: seq<Record>)
    modifies store
    ensures res.Saved? <==> Complete(req)
    ensures res.Saved? ==> listed == old(store.Contents()) + [RecordOf(req)] && res.total == |listed|
    ensures res.Rejected? ==> listed == old(store.Contents())
  {
    res := store.Post(req);
    listed := store.Get();
  }
}
