/** The fixed table of marketing actions, keyed by segment code, and the two
    ways the program reads it: a column lookup that leaves a hole for a code
    outside the table, and a lookup with a "not found" message in its place. */
module Actions {
  import opened Wrappers
  import opened Classify

  const NotFound: string := "Ação não encontrada"

  /** The eight curated segments and what to do with their customers. */
  const ActionTable: map<string, string> := map[
    "AAA" := "Clientes VIP: foco em retenção e programas de fidelidade",
    "AAB" := "Clientes importantes: mantenha o relacionamento ativo",
    "ABB" := "Clientes em crescimento: ofereça incentivos",
    "BBB" := "Clientes comuns: monitore e ofereça promoções",
    "BBC" := "Clientes em recuperação: crie campanhas de reativação",
    "CCC" := "Clientes de risco: considere reativação ou incentivo",
    "CCD" := "Clientes inativos: campanhas de reativação específicas",
    "DDD" := "Clientes perdidos: análise de feedback e retenção"
  ]

  const CuratedCodes: set<string> := {"AAA", "AAB", "ABB", "BBB", "BBC", "CCC", "CCD", "DDD"}

  /** The action column: the table's entry for the code, or nothing. */
  function ActionFor(code: string): (a: Option<string>)
    ensures a.Some? <==> code in CuratedCodes
    ensures a.Some? ==> a.value != NotFound
  {
    if code in ActionTable then Some(ActionTable[code]) else None
  }

  /** The action shown for a selected segment, "not found" when the table
      has no entry for it. */
  function RecommendedAction(code: string): (s: string)
    ensures s == NotFound <==> code !in CuratedCodes
    ensures code in CuratedCodes ==> Some(s) == ActionFor(code)
  {
    ActionFor(code).GetOr(NotFound)
  }

  /** The curated triples of classes, the segments the table has an action for. */
  const CuratedTriples: set<(Grade, Grade, Grade)> :=
    {(A, A, A), (A, A, B), (A, B, B), (B, B, B), (B, B, C), (C, C, C), (C, C, D), (D, D, D)}

  /** Every key of the table is a well-formed segment code. */
  lemma CuratedCodesDecode(code: string)
    requires code in CuratedCodes
    ensures Decode(code).Some? && Decode(code).value in CuratedTriples
  {
  }

  /** A customer's segment has an action exactly when its class triple is one
      of the eight curated ones; the other 56 triples get none. */
  lemma ActionForTriple(r: Grade, f: Grade, v: Grade)
    ensures ActionFor(Code(r, f, v)).Some? <==> (r, f, v) in CuratedTriples
  {
    var code := Code(r, f, v);
    if code in CuratedCodes {
      CuratedCodesDecode(code);
      DecodeCode(r, f, v);
    }
  }

  lemma ActionExamples()
    ensures ActionFor("AAA") == Some("Clientes VIP: foco em retenção e programas de fidelidade")
    ensures ActionFor("ABD") == None && RecommendedAction("ABD") == NotFound
  {
  }
}
