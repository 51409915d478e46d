/** Calls made again: producers repeat them freely, and nothing is recorded twice. */
module Repeats {
  import opened Containment
  import opened Entities
  import opened Store
  import opened StoreInvariant

  lemma AddModuleAgain(p: Project, name: string)
    ensures AddModule(AddModule(p, name).0, name) == AddModule(p, name)
  {}

  /** The same path and contents give the same file; other contents for the path are refused. */
  lemma AddFileAgain(
      p: Project, moduleId: Option<int>, path: string, content: seq<int>, instanceType: InstanceType,
      other: Option<int>, content': seq<int>, instanceType': InstanceType)
    requires FilesAgree(p.files, p.objects)
    requires AddFile(p, moduleId, path, content, instanceType).Added?
    ensures var r := AddFile(p, moduleId, path, content, instanceType);
            (other.Some? ==> other.value in r.project.modules.byID) ==>
              AddFile(r.project, other, path, content', instanceType')
              == if content' == content then Added(r.project, r.id) else Failed
  {
    var r := AddFile(p, moduleId, path, content, instanceType);
    if path in p.files.idByPath {
      assert p.files.idByPath[path] in p.files.pathByID;
    } else {
      assert r.project.objects[r.id - 1].content == content;
    }
  }

  /** Two calls for one symbol and one extent, whatever else they say of it. */
  predicate SameDeclaration(c: SymbolCall, d: SymbolCall) {
    c.fileId == d.fileId && c.name == d.name && c.scope == d.scope && c.start == d.start && c.end == d.end
  }

  /** The second call returns the first one's instance and keeps its spans, kind and parent. */
  lemma AddSymbolAgain(p: Project, c: SymbolCall, d: SymbolCall)
    requires Accepts(p, c) && SameDeclaration(c, d) && d.moduleId in p.modules.byID && d.kind != Unspecified
    ensures AddSymbol(AddSymbol(p, c).project, d) == AddSymbol(p, c)
  {
    hide WithInstance, DeclaredInfo;
    var r := AddSymbol(p, c);
    var path := p.files.pathByID[c.fileId];
    var (named, symbolID) := NamedSymbol(p.symbols, path, c);
    NamedAgain(p.symbols, path, c, d);
    var (start, end) := ClampedExtent(c.start, c.end, |p.objects[c.fileId - 1].content|);
    var q := p.(symbols := named);
    assert r == DeclareOnce(q, c, symbolID, start, end);
    InstanceAdded(p.objects, c.fileId, DeclaredInfo(c, symbolID, start, end));
    assert r.project.(symbols := r.project.symbols) == r.project;
  }

  lemma NamedAgain(t: SymbolTable, path: string, c: SymbolCall, d: SymbolCall)
    requires SameDeclaration(c, d)
    ensures NamedSymbol(NamedSymbol(t, path, c).0, path, d) == NamedSymbol(t, path, c)
  {
    var (named, symbolID) := NamedSymbol(t, path, c);
    var name := FileName(path, c.name);
    assert path != "" ==> named.byFileAndName[name := symbolID] == named.byFileAndName;
  }

  lemma InstanceAdded(objects: seq<ObjectRec>, id: int, info: InstanceInfo)
    requires 0 < id <= |objects|
    ensures WithInstance(objects, id, info)[id - 1].content == objects[id - 1].content
  {}
}
