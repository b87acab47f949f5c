/** The backend activity service (`AtividadeService`): create, list, read, update and delete of
    activities (atividades) kept in an ORM repository, and the association of students (alunos)
    with an activity. The repository is an in-memory map from id to stored row; the student
    repository is the set of existing student ids. */
module Atividades {
  import opened Common

  /** An HTTP error as raised by `new HttpException(message, status)`. */
  datatype HttpError = HttpError(status: nat, message: string)

  const NOT_FOUND: nat := 404
  const INTERNAL_SERVER_ERROR: nat := 500

  const ATIVIDADE_NAO_ENCONTRADA := "Atividade não encontrada"
  const ALUNO_NAO_ENCONTRADO := "Aluno não encontrado"
  const ERRO_AO_BUSCAR_ATIVIDADES := "Erro ao buscar atividades"
  const ERRO_AO_BUSCAR_ATIVIDADE := "Erro ao buscar atividade"
  const ERRO_AO_REMOVER_ATIVIDADE := "Erro ao remover atividade"
  const ATIVIDADE_REMOVIDA := "Atividade removida com sucesso"

  datatype Result<T> = Ok(value: T) | Err(error: HttpError)

  /** A stored activity row as the ORM hands it back. `professor` is the owning teacher's id
      when that relation is loaded and present; `aluno` is the list of assigned student ids
      when that relation is set, and absent (`undefined`) otherwise. */
  datatype Atividade = Atividade(
    id: nat,
    titulo: string,
    descricao: string,
    data: string,
    hora: string,
    professor: Option<nat>,
    aluno: Option<seq<nat>>)

  /** The body of `POST /atividade`. */
  datatype CreateAtividadeDto = CreateAtividadeDto(
    titulo: string, descricao: string, data: string, hora: string, professorId: nat)

  /** The body of `PATCH /atividade/:id`: every field is optional. */
  datatype UpdateAtividadeDto = UpdateAtividadeDto(
    titulo: Option<string>, descricao: Option<string>, data: Option<string>,
    hora: Option<string>, professorId: Option<nat>)

  /** What `getAtividade` returns: the row with `professor` defaulted to `null` and `aluno`
      defaulted to `[]`. */
  datatype AtividadeView = AtividadeView(
    id: nat, titulo: string, descricao: string, data: string, hora: string,
    professor: Option<nat>, aluno: seq<nat>)

  /** What `getAtividades` returns per row: the spread row (whose `aluno` is left as it was)
      plus a new key `alunos`, computed from `aluno` and defaulted to `[]`. */
  datatype ListedAtividade = ListedAtividade(
    id: nat, titulo: string, descricao: string, data: string, hora: string,
    professor: Option<nat>, aluno: Option<seq<nat>>, alunos: seq<nat>)

  /** The students assigned to a stored row, `[]` when the relation is absent. */
  function StoredAlunos(a: Atividade): seq<nat> {
    a.aluno.GetOr([])
  }

  /** The normalised copy built by `getAtividade`. */
  function Hydrate(a: Atividade): (v: AtividadeView)
    ensures v.id == a.id && v.titulo == a.titulo && v.descricao == a.descricao
    ensures v.data == a.data && v.hora == a.hora && v.professor == a.professor
    ensures a.aluno.None? ==> v.aluno == []
    ensures a.aluno.Some? ==> v.aluno == a.aluno.value
  {
    AtividadeView(a.id, a.titulo, a.descricao, a.data, a.hora, a.professor, StoredAlunos(a))
  }

  /** The normalised copy built by `getAtividades`: `aluno` is read, `alunos` is written. */
  function HydrateForList(a: Atividade): (l: ListedAtividade)
    ensures l.id == a.id && l.titulo == a.titulo && l.descricao == a.descricao
    ensures l.data == a.data && l.hora == a.hora && l.professor == a.professor
    ensures l.aluno == a.aluno
    ensures a.aluno.None? ==> l.alunos == []
    ensures a.aluno.Some? ==> l.alunos == a.aluno.value
  {
    ListedAtividade(a.id, a.titulo, a.descricao, a.data, a.hora, a.professor, a.aluno,
                    StoredAlunos(a))
  }

  /** Every row is stored under its own id. */
  ghost predicate Keyed(store: map<nat, Atividade>) {
    forall id :: id in store ==> store[id].id == id
  }

  /** The rows with ids in [lo, hi), in ascending id order (the repository's id order). */
  function RowsBetween(store: map<nat, Atividade>, lo: nat, hi: nat): (r: seq<ListedAtividade>)
    requires Keyed(store)
    ensures forall i :: 0 <= i < |r| ==>
      r[i].id in store && lo <= r[i].id < hi && r[i] == HydrateForList(store[r[i].id])
    ensures forall i, j :: 0 <= i < j < |r| ==> r[i].id < r[j].id
    decreases hi - lo
  {
    if lo >= hi then []
    else if lo in store then [HydrateForList(store[lo])] + RowsBetween(store, lo + 1, hi)
    else RowsBetween(store, lo + 1, hi)
  }

  /** Every stored row with an id in [lo, hi) appears in `RowsBetween(store, lo, hi)`. */
  lemma {:induction false} RowsBetweenComplete(store: map<nat, Atividade>, lo: nat, hi: nat, id: nat)
    requires Keyed(store)
    requires id in store && lo <= id < hi
    ensures exists i :: 0 <= i < |RowsBetween(store, lo, hi)| && RowsBetween(store, lo, hi)[i].id == id
    decreases hi - lo
  {
    var r := RowsBetween(store, lo, hi);
    var rest := RowsBetween(store, lo + 1, hi);
    if id == lo {
      assert r == [HydrateForList(store[lo])] + rest;
      assert r[0].id == id;
    } else {
      RowsBetweenComplete(store, lo + 1, hi, id);
      var k :| 0 <= k < |rest| && rest[k].id == id;
      if lo in store {
        assert r == [HydrateForList(store[lo])] + rest;
        assert r[k + 1] == rest[k];
      } else {
        assert r == rest;
      }
    }
  }

  /** The field-wise merge performed by `repository.update(id, dto)`: supplied fields replace
      the stored ones, a supplied `professorId` reassigns the owner, nothing else changes. */
  function ApplyUpdate(a: Atividade, dto: UpdateAtividadeDto): (u: Atividade)
    ensures u.id == a.id && u.aluno == a.aluno
    ensures u.titulo == dto.titulo.GetOr(a.titulo) && u.descricao == dto.descricao.GetOr(a.descricao)
    ensures u.data == dto.data.GetOr(a.data) && u.hora == dto.hora.GetOr(a.hora)
    ensures u.professor == if dto.professorId.Some? then dto.professorId else a.professor
  {
    Atividade(a.id, dto.titulo.GetOr(a.titulo), dto.descricao.GetOr(a.descricao),
              dto.data.GetOr(a.data), dto.hora.GetOr(a.hora),
              if dto.professorId.Some? then dto.professorId else a.professor, a.aluno)
  }

  /** An update that supplies only `titulo` changes only the title. */
  lemma UpdateOnlyTitle(a: Atividade, titulo: string)
    ensures ApplyUpdate(a, UpdateAtividadeDto(Some(titulo), None, None, None, None)) == a.(titulo := titulo)
  {
  }

  /** The student list after the duplicate check of `assignAluno`: the id is pushed at the end
      unless some entry already has it. */
  function AddAluno(alunos: seq<nat>, alunoId: nat): (r: seq<nat>)
    ensures alunoId in r
    ensures |r| == if alunoId in alunos then |alunos| else |alunos| + 1
    ensures r[..|alunos|] == alunos
  {
    if alunoId in alunos then alunos else alunos + [alunoId]
  }

  /** On a duplicate-free list the assigned student ends up listed exactly once and the list
      stays duplicate-free. */
  lemma AddAlunoOnce(alunos: seq<nat>, alunoId: nat)
    requires NoDup(alunos)
    ensures NoDup(AddAluno(alunos, alunoId))
    ensures multiset(AddAluno(alunos, alunoId))[alunoId] == 1
  {
    if alunoId !in alunos {
      AppendFreshNoDup(alunos, alunoId);
    }
    NoDupOccursOnce(AddAluno(alunos, alunoId), alunoId);
  }

  /** Assigning the same student twice in succession lists that student exactly once, and the
      second assignment changes nothing. */
  lemma AssignTwiceOnce(alunos: seq<nat>, alunoId: nat)
    requires NoDup(alunos)
    ensures AddAluno(AddAluno(alunos, alunoId), alunoId) == AddAluno(alunos, alunoId)
    ensures multiset(AddAluno(AddAluno(alunos, alunoId), alunoId))[alunoId] == 1
  {
    AddAlunoOnce(alunos, alunoId);
  }

  /** The repository invariant: rows are keyed by their own id, ids already handed out are
      below `nextId`, and no activity lists a student twice. */
  ghost predicate WellFormed(store: map<nat, Atividade>, nextId: nat) {
    Keyed(store) &&
    forall id :: id in store ==> id < nextId && NoDup(StoredAlunos(store[id]))
  }

  /** Saving a row under its own existing id, with a duplicate-free student list, keeps the
      repository invariant. */
  lemma SaveRowWellFormed(store: map<nat, Atividade>, nextId: nat, row: Atividade)
    requires WellFormed(store, nextId) && row.id in store && NoDup(StoredAlunos(row))
    ensures WellFormed(store[row.id := row], nextId)
  {
  }

  /** The service with its two repositories. */
  class AtividadeService {
    /** The activity repository: id -> stored row. */
    var atividades: map<nat, Atividade>
    /** The student repository, as the set of ids `alunoRepository.findOne` can find. */
    var alunos: set<nat>
    /** The id the repository will generate for the next inserted row. */
    var nextId: nat

    /** The repository invariant holds. */
    ghost predicate Valid()
      reads this
    {
      WellFormed(atividades, nextId)
    }

    constructor (students: set<nat>)
      ensures Valid()
      ensures atividades == map[] && alunos == students
    {
      atividades := map[];
      alunos := students;
      nextId := 0;
    }

    /** `createAtividade`: inserts a new row with exactly the given fields and a generated id.
        No duplicate check is made; the students relation is not set. */
    method CreateAtividade(dto: CreateAtividadeDto) returns (saved: Atividade)
      requires Valid()
      modifies this
      ensures Valid()
      ensures saved.id !in old(atividades)
      ensures saved == Atividade(saved.id, dto.titulo, dto.descricao, dto.data, dto.hora,
                                 Some(dto.professorId), None)
      ensures atividades == old(atividades)[saved.id := saved]
      ensures alunos == old(alunos)
    {
      saved := Atividade(nextId, dto.titulo, dto.descricao, dto.data, dto.hora,
                         Some(dto.professorId), None);
      atividades := atividades[nextId := saved];
      nextId := nextId + 1;
    }

    /** `getAtividades`: one normalised entry per stored row, no filtering, in id order.
        `fault` stands for an exception thrown by the repository. */
    function GetAtividades(fault: bool): (r: Result<seq<ListedAtividade>>)
      reads this
      requires Valid()
      ensures fault ==> r == Err(HttpError(INTERNAL_SERVER_ERROR, ERRO_AO_BUSCAR_ATIVIDADES))
      ensures !fault ==> r.Ok?
      ensures r.Ok? ==> forall i :: 0 <= i < |r.value| ==>
        r.value[i].id in atividades && r.value[i] == HydrateForList(atividades[r.value[i].id])
      ensures r.Ok? ==> forall i, j :: 0 <= i < j < |r.value| ==> r.value[i].id < r.value[j].id
    {
      if fault then Err(HttpError(INTERNAL_SERVER_ERROR, ERRO_AO_BUSCAR_ATIVIDADES))
      else Ok(RowsBetween(atividades, 0, nextId))
    }

    /** Every stored row appears in the list returned by `getAtividades`. */
    lemma GetAtividadesListsAll(id: nat)
      requires Valid() && id in atividades
      ensures GetAtividades(false).Ok?
      ensures exists i :: 0 <= i < |GetAtividades(false).value| &&
                          GetAtividades(false).value[i] == HydrateForList(atividades[id])
    {
      RowsBetweenComplete(atividades, 0, nextId, id);
    }

    /** `getAtividade`: NotFound for an absent id, otherwise the normalised row; a repository
        exception (`fault`) becomes a 500. */
    function GetAtividade(id: nat, fault: bool): (r: Result<AtividadeView>)
      reads this
      ensures fault ==> r == Err(HttpError(INTERNAL_SERVER_ERROR, ERRO_AO_BUSCAR_ATIVIDADE))
      ensures !fault && id !in atividades ==> r == Err(HttpError(NOT_FOUND, ATIVIDADE_NAO_ENCONTRADA))
      ensures !fault && id in atividades ==> r == Ok(Hydrate(atividades[id]))
    {
      if fault then Err(HttpError(INTERNAL_SERVER_ERROR, ERRO_AO_BUSCAR_ATIVIDADE))
      else if id !in atividades then Err(HttpError(NOT_FOUND, ATIVIDADE_NAO_ENCONTRADA))
      else Ok(Hydrate(atividades[id]))
    }

    /** `updateAtividade`: applies the supplied fields to the row (a no-op on an absent id),
        then returns whatever `getAtividade(id)` returns. */
    method UpdateAtividade(id: nat, dto: UpdateAtividadeDto) returns (r: Result<AtividadeView>)
      requires Valid()
      modifies this
      ensures Valid()
      ensures id in old(atividades) ==> atividades == old(atividades)[id := ApplyUpdate(old(atividades)[id], dto)]
      ensures id !in old(atividades) ==> atividades == old(atividades)
      ensures alunos == old(alunos)
      ensures r == GetAtividade(id, false)
      ensures id !in old(atividades) <==> r == Err(HttpError(NOT_FOUND, ATIVIDADE_NAO_ENCONTRADA))
    {
      if id in atividades {
        atividades := atividades[id := ApplyUpdate(atividades[id], dto)];
      }
      r := GetAtividade(id, false);
    }

    /** `deleteAtividade`: NotFound when no row was affected, the success message otherwise;
        the row goes together with its student list. A repository exception (`fault`) becomes
        a 500 and nothing is removed. */
    method DeleteAtividade(id: nat, fault: bool) returns (r: Result<string>)
      requires Valid()
      modifies this
      ensures Valid()
      ensures fault ==> r == Err(HttpError(INTERNAL_SERVER_ERROR, ERRO_AO_REMOVER_ATIVIDADE))
      ensures !fault && id !in old(atividades) ==> r == Err(HttpError(NOT_FOUND, ATIVIDADE_NAO_ENCONTRADA))
      ensures !fault && id in old(atividades) ==> r == Ok(ATIVIDADE_REMOVIDA)
      ensures r.Ok? ==> atividades == old(atividades) - {id}
      ensures r.Err? ==> atividades == old(atividades)
      ensures r.Ok? ==> GetAtividade(id, false) == Err(HttpError(NOT_FOUND, ATIVIDADE_NAO_ENCONTRADA))
      ensures alunos == old(alunos)
    {
      if fault {
        return Err(HttpError(INTERNAL_SERVER_ERROR, ERRO_AO_REMOVER_ATIVIDADE));
      }
      var affected := if id in atividades then 1 else 0;
      atividades := atividades - {id};
      if affected == 0 {
        r := Err(HttpError(NOT_FOUND, ATIVIDADE_NAO_ENCONTRADA));
      } else {
        r := Ok(ATIVIDADE_REMOVIDA);
      }
    }

    /** `assignAluno`: fails with one NotFound for a missing activity and another for a missing
        student, changing nothing; otherwise appends the student unless already listed, saves
        the row and returns it as loaded (only the students relation is loaded, so the
        returned row carries no teacher; the stored teacher is kept). */
    method AssignAluno(atividadeId: nat, alunoId: nat) returns (r: Result<Atividade>)
      requires Valid()
      modifies this
      ensures Valid()
      ensures alunos == old(alunos)
      ensures atividadeId !in old(atividades) ==>
        r == Err(HttpError(NOT_FOUND, ATIVIDADE_NAO_ENCONTRADA)) && atividades == old(atividades)
      ensures atividadeId in old(atividades) && alunoId !in alunos ==>
        r == Err(HttpError(NOT_FOUND, ALUNO_NAO_ENCONTRADO)) && atividades == old(atividades)
      ensures atividadeId in old(atividades) && alunoId in alunos ==>
        var before := old(atividades)[atividadeId];
        var after := before.(aluno := Some(AddAluno(StoredAlunos(before), alunoId)));
        atividades == old(atividades)[atividadeId := after] && r == Ok(after.(professor := None))
      ensures r.Ok? ==> multiset(StoredAlunos(atividades[atividadeId]))[alunoId] == 1
    {
      if atividadeId !in atividades {
        return Err(HttpError(NOT_FOUND, ATIVIDADE_NAO_ENCONTRADA));
      }
      var loaded := atividades[atividadeId].(professor := None);
      if alunoId !in alunos {
        return Err(HttpError(NOT_FOUND, ALUNO_NAO_ENCONTRADO));
      }
      var stored := atividades[atividadeId];
      var list := if loaded.aluno.None? then [] else loaded.aluno.value;
      if alunoId !in list {
        list := list + [alunoId];
      }
      assert list == AddAluno(StoredAlunos(stored), alunoId);
      AddAlunoOnce(StoredAlunos(stored), alunoId);
      loaded := loaded.(aluno := Some(list));
      // `save` writes the students relation and leaves the unloaded teacher relation alone.
      var saved := loaded.(professor := stored.professor);
      assert saved == stored.(aluno := Some(list));
      SaveRowWellFormed(atividades, nextId, saved);
      atividades := atividades[atividadeId := saved];
      r := Ok(loaded);
    }
  }
}
