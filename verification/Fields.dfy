/**
 What each producer call leaves in the fields of the project, with every condition and every
 value written out, and what it leaves alone.
 */
module Fields {
  import opened Containment
  import opened Entities
  import opened Store
  import opened StoreInvariant
  import opened Resolution

  // ------------------------------------------------------------------
  // Modules and files

  /** A new name gives a new module without a symbol and without files; a known one changes nothing. */
  lemma ModuleAsAsked(p: Project, name: string)
    requires Invariant(p)
    ensures var (q, id) := AddModule(p, name);
            if name in p.modules.byName then q == p && id == p.modules.byName[name]
            else
              && id !in p.modules.byID && id !in p.modules.byName.Values
              && q == p.(modules := q.modules) && q.modules.ofFile == p.modules.ofFile
              && q.modules.byName == p.modules.byName[name := id]
              && q.modules.byID == p.modules.byID[id := ModuleInfo(name, 0, [])]
  {
    hide SymbolsAgree, AllNamed, FilesAgree, SlotsAgree, StatedAgrees, EntriesAgree, LookupAgrees;
    var id := p.modules.nextID;
    forall known | known in p.modules.byName ensures p.modules.byName[known] < id {
      assert ModuleAgrees(p.modules, p.files.pathByID.Keys, p.symbols.list, p.modules.byName[known]);
    }
    forall m | m in p.modules.byID ensures m < id {
      assert ModuleAgrees(p.modules, p.files.pathByID.Keys, p.symbols.list, m);
    }
  }

  /** A file that is new: one FILE symbol with its path, and one object with one instance over all of it. */
  predicate IsNewFile(
      p: Project, q: Project, moduleId: Option<int>, path: string, content: seq<int>, instanceType: InstanceType,
      id: int)
  {
    var symbol := |p.symbols.list| + 1;
    var whole := InstanceInfo(symbol, instanceType, 0, ToInt32(|content|), false, None, None, None);
    && id == |p.objects| + 1 && q.objects == p.objects + [ObjectRec(path, content, [whole], [])]
    && q.symbols == p.symbols.(list := p.symbols.list + [Symbol(symbol, path, NoScope, File)])
    && q.files.pathByID == p.files.pathByID[id := path] && q.files.idByPath == p.files.idByPath[path := id]
    && q == p.(symbols := q.symbols, objects := q.objects, modules := q.modules, files := q.files)
    && if moduleId.None? then q.modules == p.modules
       else
         var m := moduleId.value;
         && m in p.modules.byID
         && q.modules == p.modules.(
              ofFile := p.modules.ofFile[id := m],
              byID := p.modules.byID[m := ModuleInfo(p.modules.byID[m].name, p.modules.byID[m].symbolID,
                                                     p.modules.byID[m].fileIDs + [id])])
  }

  /** Refused for an unknown module or other contents; the same contents change nothing; a new path is a new file. */
  lemma FileAsAsked(p: Project, moduleId: Option<int>, path: string, content: seq<int>, instanceType: InstanceType)
    requires Invariant(p)
    ensures var r := AddFile(p, moduleId, path, content, instanceType);
            if moduleId.Some? && moduleId.value !in p.modules.byID then r == Failed
            else if path in p.files.idByPath then
              var id := p.files.idByPath[path];
              && IsObject(p.objects, id) && p.objects[id - 1].path == path
              && r == if p.objects[id - 1].content == content then Added(p, id) else Failed
            else
              r.Added? && r.id !in p.files.pathByID
                && IsNewFile(p, r.project, moduleId, path, content, instanceType, r.id)
  {
    hide SymbolsAgree, AllNamed, ModulesAgree, SlotsAgree, StatedAgrees, EntriesAgree, LookupAgrees;
  }

  // ------------------------------------------------------------------
  // Declarations

  /** A call is accepted exactly under these conditions; the module only has to exist. */
  lemma AcceptedExactly(p: Project, c: SymbolCall)
    requires Invariant(p)
    ensures AddSymbol(p, c).AddedSymbol?
            <==> && c.moduleId in p.modules.byID && c.fileId in p.files.pathByID && c.kind != Unspecified
                 && 0 <= c.start <= 0x7FFF_FFFF && 0 <= c.end <= 0x7FFF_FFFF
  {
    hide SymbolsAgree, AllNamed, ModulesAgree, SlotsAgree, StatedAgrees, EntriesAgree, LookupAgrees, DeclareOnce;
  }

  /** The names in all files after a call: the file and name of the call find its symbol, all others what they did. */
  ghost predicate AreNames(p: Project, q: Project, c: SymbolCall, symbolID: int)
    requires c.fileId in p.files.pathByID
  {
    var path := p.files.pathByID[c.fileId];
    var name := FileName(path, c.name);
    if path == "" then q.symbols.byFileAndName == p.symbols.byFileAndName
    else
      && name in q.symbols.byFileAndName && q.symbols.byFileAndName[name] == symbolID
      && forall other: FileName | other != name ::
           && (other in q.symbols.byFileAndName <==> other in p.symbols.byFileAndName)
           && (other in p.symbols.byFileAndName ==> q.symbols.byFileAndName[other] == p.symbols.byFileAndName[other])
  }

  /** The same for the table by name and scope. */
  ghost predicate AreKeys(p: Project, q: Project, c: SymbolCall, symbolID: int) {
    var key := SymbolKey(c.name, c.scope);
    && key in q.symbols.byKey && q.symbols.byKey[key] == symbolID
    && forall other: SymbolKey | other != key ::
         && (other in q.symbols.byKey <==> other in p.symbols.byKey)
         && (other in p.symbols.byKey ==> q.symbols.byKey[other] == p.symbols.byKey[other])
  }

  /** The caches after a call that declared instance `id`: one entry more in the file's list and in the key's list. */
  ghost predicate AreListed(p: Project, q: Project, c: SymbolCall, symbolID: int, id: int)
    requires 0 < c.fileId <= |p.objects|
  {
    var length := |p.objects[c.fileId - 1].content|;
    var start := if c.end > length && c.start > length then length else c.start;
    var end := if c.end > length then length else c.end;
    var lookup := LookupKey(c.name, c.scope, c.kind);
    if InstanceKey(symbolID, c.fileId, start, end) in p.instances.idByKey then q.instances == p.instances
    else
      && q.instances.idByKey == p.instances.idByKey[InstanceKey(symbolID, c.fileId, start, end) := id]
      && (forall f ::
            Listed(q.instances.byFile, f) == Listed(p.instances.byFile, f)
            + if f == c.fileId then [Entry(symbolID, c.fileId, c.kind, start, end, id)] else [])
      && forall key ::
           Listed(q.instances.byLookup, key) == Listed(p.instances.byLookup, key) + if key == lookup then [id] else []
  }

  lemma NamesAsAsked(p: Project, c: SymbolCall)
    requires Accepts(p, c)
    ensures var r := AddSymbol(p, c);
            && AreNames(p, r.project, c, r.symbolID) && AreKeys(p, r.project, c, r.symbolID)
            && AreListed(p, r.project, c, r.symbolID, r.instanceID)
  {
    hide WithInstance, DeclaredInfo, WithDeclared, AreListed;
    var r := AddSymbol(p, c);
    var (named, symbolID) := NamedSymbol(p.symbols, p.files.pathByID[c.fileId], c);
    assert r.project.symbols == named && r.symbolID == symbolID;
    var (start, end) := ClampedExtent(c.start, c.end, |p.objects[c.fileId - 1].content|);
    ListedAsAsked(p, p.(symbols := named), c, symbolID, start, end);
  }

  lemma ListedAsAsked(p: Project, named: Project, c: SymbolCall, symbolID: int, start: int, end: int)
    requires Accepts(p, c) && named == p.(symbols := named.symbols)
    requires (start, end) == ClampedExtent(c.start, c.end, |p.objects[c.fileId - 1].content|)
    ensures var r := DeclareOnce(named, c, symbolID, start, end);
            AreListed(p, r.project, c, symbolID, r.instanceID)
  {
    hide WithInstance, DeclaredInfo, NamedSymbol, WithDeclared, Listed;
    OneMoreListed(p.instances, c, symbolID, start, end, |p.objects[c.fileId - 1].insts|);
  }

  lemma OneMoreListed(t: InstanceTable, c: SymbolCall, symbolID: int, start: int, end: int, idx: nat)
    ensures var u := WithDeclared(t, c, symbolID, start, end, idx);
            && u.idByKey == t.idByKey[InstanceKey(symbolID, c.fileId, start, end) := t.nextID]
            && (forall f ::
                  Listed(u.byFile, f) == Listed(t.byFile, f)
                  + if f == c.fileId then [Entry(symbolID, c.fileId, c.kind, start, end, t.nextID)] else [])
            && forall key ::
                 Listed(u.byLookup, key)
                 == Listed(t.byLookup, key) + if key == LookupKey(c.name, c.scope, c.kind) then [t.nextID] else []
  {
    hide AcceptsParent;
    assert forall f :: Listed(t.byFile, f) + [] == Listed(t.byFile, f);
    assert forall key :: Listed(t.byLookup, key) + [] == Listed(t.byLookup, key);
  }

  /** Everything a call to AddSymbol does not touch. */
  lemma DeclaringTouches(p: Project, c: SymbolCall)
    requires Accepts(p, c)
    ensures var q := AddSymbol(p, c).project;
            q == p.(symbols := q.symbols, objects := q.objects, instances := q.instances)
  {
    hide WithInstance, DeclaredInfo, WithDeclared, NamedSymbol;
  }

  // ------------------------------------------------------------------
  // References

  /** A reference is logged whole, or refused when its target has no line or its start is entirely empty. */
  lemma ReferenceAsLogged(p: Project, ref: Reference)
    ensures var r := AddReference(p, ref);
            if ref.to.line > 0 && (ref.start.line > 0 || ref.start.filename != "")
            then r.Added? && r.project == p.(references := p.references + [ref])
            else r == Failed
  {}

  /** A symbol of this id is what the reference's target file and name find. */
  predicate Finds(p: Project, ref: Reference, id: int) {
    var name := FileName(ref.to.filename, ref.toName);
    name in p.symbols.byFileAndName && p.symbols.byFileAndName[name] == id
  }

  /** Entry `i` of the log asks for `token` in file `f`: its target is found, its file known, and its offsets fit. */
  predicate AsksFor(p: Project, f: int, i: int, token: Token) {
    && 0 <= i < |p.references|
    && var ref := p.references[i];
       && Finds(p, ref, token.toSymbolLocalId) && ref.fromFile == f && f in p.files.pathByID
       && 0 <= ref.start.offset <= 0x7FFF_FFFF && 0 <= ref.end.offset <= 0x7FFF_FFFF
       && token.start == ref.start.offset && token.end == ref.end.offset
  }

  /** The surrounding construct that is kept: one whose offsets fit and that encloses the token. */
  function FullOf(ref: Reference): Option<Span> {
    match ref.full
    case None => None
    case Some(span) =>
      if 0 <= span.start <= 0x7FFF_FFFF && 0 <= span.end <= 0x7FFF_FFFF
         && span.start <= ref.start.offset && ref.end.offset <= span.end then Some(span)
      else None
  }

  lemma AskingIsCounting(p: Project, f: int, i: int, token: Token)
    ensures AsksFor(p, f, i, token) <==> Counts(p, f, i) && TokenOf(RefAt(p, i)) == token
    ensures Counts(p, f, i) ==> RefAt(p, i).full == FullOf(p.references[i])
  {}

  /** No earlier entry of the log asks for the same. */
  ghost predicate AsksFirst(p: Project, f: int, i: int, token: Token) {
    AsksFor(p, f, i, token) && forall j | AsksFor(p, f, j, token) :: i <= j
  }

  /** What the first `m` entries ask for in file `f`, each once, with the construct that its first entry gives. */
  ghost predicate AreAsked(p: Project, f: int, m: nat, added: seq<RefInfo>) {
    && DistinctTokens(added)
    && (forall token :: IsAmong(added, token) <==> exists i :: i < m && AsksFor(p, f, i, token))
    && (forall a, i | 0 <= a < |added| && AsksFirst(p, f, i, TokenOf(added[a])) ::
          added[a].full == FullOf(p.references[i]))
  }

  /** No target is found under that file and name, and the name is not one of cgo's. */
  predicate IsMissing(p: Project, ref: Reference) {
    && FileName(ref.to.filename, ref.toName) !in p.symbols.byFileAndName
    && !(|ref.toName| >= 2 && ref.toName[0] == 'C' && ref.toName[1] == '.')
  }

  /** How many entries of the log come before the first whose target is missing. */
  ghost predicate EndsAt(p: Project, m: nat) {
    && m <= |p.references| && (forall i | 0 <= i < m :: !IsMissing(p, p.references[i]))
    && (m < |p.references| ==> IsMissing(p, p.references[m]))
  }

  /** A file after a resolution: what the entries before the first missing target ask for, and nothing else. */
  ghost predicate IsResolvedFile(p: Project, q: Project, f: int, m: nat)
    requires IsObject(p.objects, f) && IsObject(q.objects, f)
  {
    var before, after := p.objects[f - 1], q.objects[f - 1];
    before.refs <= after.refs && after == before.(refs := after.refs) && AreAsked(p, f, m, after.refs[|before.refs|..])
  }

  lemma FailuresAreMissing(p: Project)
    ensures EndsAt(p, FirstFailure(p, 0))
  {
    hide FirstFailure;
    forall ref ensures IsStrictFailure(p, ref) <==> IsMissing(p, ref) {
      MissingIs(p, ref);
    }
  }

  lemma MissingIs(p: Project, ref: Reference)
    ensures IsStrictFailure(p, ref) <==> IsMissing(p, ref)
  {
    if |ref.toName| >= 2 {
      assert ref.toName[..2] == [ref.toName[0], ref.toName[1]];
    }
  }

  lemma AskedIs(p: Project, f: int, m: nat, token: Token)
    ensures IsAsked(p, f, m, token) <==> exists i :: i < m && AsksFor(p, f, i, token)
  {
    hide AsksFor, RefAt;
    if i :| i < m && Counts(p, f, i) && TokenOf(RefAt(p, i)) == token {
      AskingIsCounting(p, f, i, token);
    }
    if i :| i < m && AsksFor(p, f, i, token) {
      AskingIsCounting(p, f, i, token);
    }
  }

  lemma ResolvedIsAsked(p: Project, f: int, m: nat, added: seq<RefInfo>)
    requires IsResolved(p, f, m, added)
    ensures AreAsked(p, f, m, added)
  {
    hide RefAt, FullOf, IsAmong, IsResolvable, Finds;
    forall i, token ensures AsksFor(p, f, i, token) <==> Counts(p, f, i) && TokenOf(RefAt(p, i)) == token {
      AskingIsCounting(p, f, i, token);
    }
    forall token ensures IsAmong(added, token) <==> exists i :: i < m && AsksFor(p, f, i, token) {
      AskedIs(p, f, m, token);
      assert IsAmong(added, token) <==> IsAsked(p, f, m, token);
    }
    forall a, i | 0 <= a < |added| && AsksFirst(p, f, i, TokenOf(added[a]))
      ensures added[a].full == FullOf(p.references[i])
    {
      var j :| j < m && IsFirst(p, f, j) && added[a] == RefAt(p, j);
      assert AsksFor(p, f, j, TokenOf(added[a]));
      assert i <= j && j <= i;
      AskingIsCounting(p, f, i, TokenOf(added[a]));
    }
  }

  /**
   A resolution gives each file exactly what the log asks for up to the first missing target,
   clears the log when there is none, and touches nothing else.
   */
  lemma ReferencesAsAsked(p: Project, f: int) returns (m: nat)
    requires IsObject(p.objects, f)
    ensures EndsAt(p, m)
    ensures var q := ResolveReferences(p);
            && |q.objects| == |p.objects| && IsResolvedFile(p, q, f, m)
            && q == p.(objects := q.objects, references := q.references)
            && q.references == (if m == |p.references| then [] else p.references)
    ensures ResolveOutcome(p)
            == if m == |p.references| then Resolved
               else if p.references[m].fromFile in p.files.pathByID then MissingTarget else NilFile
  {
    hide IsResolved, AreFirsts, ResolveLog, FirstFailure, AreAsked, EndsAt;
    m := FirstFailure(p, 0);
    FailuresAreMissing(p);
    var firsts := LogAddsFirsts(p, f, m);
    FirstsAreResolved(p, f, m, firsts);
    var before, added := p.objects[f - 1].refs, RefsAt(p, firsts);
    ResolvedIsAsked(p, f, m, added);
    assert (before + added)[|before|..] == added;
  }
}
