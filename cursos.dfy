/** Course platform (semana04/EjemplosMundoReal_POO/3_plataforma_cursos.py).
    Lessons, courses and students are entries of three lists and refer to
    each other by position.  A lesson's `completada` flag belongs to the
    lesson itself, shared by every student and course that lists it; a
    student's progress is keyed by course code, so two courses with the
    same code share it, as in the original. */
module Cursos {
  import opened Wrappers
  import opened Redondeo

  datatype Leccion = Leccion(titulo: string, duracionMin: int, contenido: string, completada: bool)

  datatype Curso = Curso(codigo: string, nombre: string, nivel: string, lecciones: seq<nat>, estudiantes: seq<nat>)

  datatype Estudiante = Estudiante(id: string, nombre: string, cursosInscritos: seq<nat>, progreso: map<string, seq<nat>>)

  datatype ErrorCurso = NoInscrito

  /** Minimum percentage for a certificate. */
  const UMBRAL_CERTIFICADO: real := 80.0

  /** `progreso.get(codigo, [])`. */
  function ProgresoEn(e: Estudiante, codigo: string): seq<nat>
  {
    if codigo in e.progreso then e.progreso[codigo] else []
  }

  /** How many of the lessons `ls` are in the progress list and completed
      (a lesson listed twice counts twice). */
  function Completadas(ls: seq<nat>, progreso: seq<nat>, lecciones: seq<Leccion>): (n: nat)
    requires forall j | 0 <= j < |ls| :: ls[j] < |lecciones|
    ensures n <= |ls|
    ensures (forall j | 0 <= j < |ls| :: ls[j] in progreso && lecciones[ls[j]].completada) ==> n == |ls|
    ensures (forall j | 0 <= j < |ls| :: ls[j] !in progreso) ==> n == 0
  {
    if ls == [] then 0
    else
      var primera := if ls[0] in progreso && lecciones[ls[0]].completada then 1 else 0;
      primera + Completadas(ls[1..], progreso, lecciones)
  }

  /** How many of the lessons `ls` are in the progress list. */
  function EnProgreso(ls: seq<nat>, progreso: seq<nat>): nat
  {
    if ls == [] then 0 else (if ls[0] in progreso then 1 else 0) + EnProgreso(ls[1..], progreso)
  }

  /** When every lesson in the progress list is completed, as completing a
      lesson guarantees, the completion flag adds nothing to the count. */
  lemma {:induction false} CompletadasEsEnProgreso(ls: seq<nat>, progreso: seq<nat>, lecciones: seq<Leccion>)
    requires forall j | 0 <= j < |ls| :: ls[j] < |lecciones|
    requires forall j | 0 <= j < |progreso| :: progreso[j] < |lecciones| && lecciones[progreso[j]].completada
    ensures Completadas(ls, progreso, lecciones) == EnProgreso(ls, progreso)
  {
    if ls != [] {
      CompletadasEsEnProgreso(ls[1..], progreso, lecciones);
    }
  }

  /** `round(completadas / total * 100, 1)`, with 100 for a course without
      lessons. */
  function Porcentaje(completadas: nat, total: nat): (r: real)
    requires completadas <= total
    ensures 0.0 <= r <= 100.0
    ensures total == 0 || completadas == total ==> r == 100.0
    ensures total > 0 && completadas == 0 ==> r == 0.0
  {
    if total == 0 then 100.0
    else
      var x := completadas as real / total as real * 100.0;
      assert 0.0 <= x <= 100.0 by {
        assert completadas as real / total as real <= 1.0;
      }
      RedondearDecimasMonotono(0.0, x);
      RedondearDecimasMonotono(x, 100.0);
      RedondearDecimasMultiplo(0);
      RedondearDecimasMultiplo(1000);
      assert completadas == total ==> x == 1000 as real / 10.0;
      RedondearDecimas(x)
  }

  /** More completed lessons never lower the percentage. */
  lemma PorcentajeMonotono(a: nat, b: nat, total: nat)
    requires a <= b <= total
    ensures Porcentaje(a, total) <= Porcentaje(b, total)
  {
    if total > 0 {
      var t := total as real;
      assert a as real / t <= b as real / t;
      RedondearDecimasMonotono(a as real / t * 100.0, b as real / t * 100.0);
    }
  }

  /** One of two lessons completed is 50%, short of a certificate. */
  lemma PorcentajeEjemplo()
    ensures Porcentaje(1, 2) == 50.0 && Porcentaje(1, 2) < UMBRAL_CERTIFICADO
    ensures Porcentaje(4, 5) == 80.0
  {
    assert 1.0 / 2.0 * 100.0 == 500 as real / 10.0;
    RedondearDecimasMultiplo(500);
    assert 4.0 / 5.0 * 100.0 == 800 as real / 10.0;
    RedondearDecimasMultiplo(800);
  }

  class Plataforma {
    var lecciones: seq<Leccion>
    var cursos: seq<Curso>
    var estudiantes: seq<Estudiante>

    ghost predicate Valid()
      reads this
    {
      && (forall c | 0 <= c < |cursos| ::
            && (forall j | 0 <= j < |cursos[c].lecciones| :: cursos[c].lecciones[j] < |lecciones|)
            && (forall j | 0 <= j < |cursos[c].estudiantes| :: cursos[c].estudiantes[j] < |estudiantes|))
      && (forall e | 0 <= e < |estudiantes| ::
            && (forall j | 0 <= j < |estudiantes[e].cursosInscritos| :: estudiantes[e].cursosInscritos[j] < |cursos|)
            && (forall k | k in estudiantes[e].progreso ::
                  forall j | 0 <= j < |estudiantes[e].progreso[k]| ::
                    estudiantes[e].progreso[k][j] < |lecciones| && lecciones[estudiantes[e].progreso[k][j]].completada))
      // enrolment is recorded on both sides
      && (forall c, e | 0 <= c < |cursos| && 0 <= e < |estudiantes| ::
            e in cursos[c].estudiantes <==> c in estudiantes[e].cursosInscritos)
    }

    constructor ()
      ensures Valid()
      ensures lecciones == [] && cursos == [] && estudiantes == []
    {
      lecciones := [];
      cursos := [];
      estudiantes := [];
    }

    /** `Leccion(titulo, duracion_min, contenido)`: not completed. */
    method NuevaLeccion(titulo: string, duracionMin: int, contenido: string) returns (l: nat)
      requires Valid()
      modifies this
      ensures Valid()
      ensures l == |old(lecciones)|
      ensures lecciones == old(lecciones) + [Leccion(titulo, duracionMin, contenido, false)]
      ensures cursos == old(cursos) && estudiantes == old(estudiantes)
    {
      l := |lecciones|;
      lecciones := lecciones + [Leccion(titulo, duracionMin, contenido, false)];
    }

    /** `Curso(codigo, nombre, nivel)`: no lessons, no students. */
    method NuevoCurso(codigo: string, nombre: string, nivel: string) returns (c: nat)
      requires Valid()
      modifies this
      ensures Valid()
      ensures c == |old(cursos)|
      ensures cursos == old(cursos) + [Curso(codigo, nombre, nivel, [], [])]
      ensures lecciones == old(lecciones) && estudiantes == old(estudiantes)
    {
      c := |cursos|;
      cursos := cursos + [Curso(codigo, nombre, nivel, [], [])];
    }

    /** `Estudiante(id, nombre)`: no courses, no progress. */
    method NuevoEstudiante(id: string, nombre: string) returns (e: nat)
      requires Valid()
      modifies this
      ensures Valid()
      ensures e == |old(estudiantes)|
      ensures estudiantes == old(estudiantes) + [Estudiante(id, nombre, [], map[])]
      ensures lecciones == old(lecciones) && cursos == old(cursos)
    {
      e := |estudiantes|;
      estudiantes := estudiantes + [Estudiante(id, nombre, [], map[])];
    }

    /** `Leccion.marcar_completada`. */
    method MarcarCompletada(l: nat)
      requires Valid() && l < |lecciones|
      modifies this
      ensures Valid()
      ensures lecciones == old(lecciones)[l := old(lecciones[l]).(completada := true)]
      ensures cursos == old(cursos) && estudiantes == old(estudiantes)
    {
      lecciones := lecciones[l := lecciones[l].(completada := true)];
    }

    /** `Curso.agregar_leccion`: the lesson goes to the end. */
    method AgregarLeccion(c: nat, l: nat)
      requires Valid() && c < |cursos| && l < |lecciones|
      modifies this
      ensures Valid()
      ensures cursos == old(cursos)[c := old(cursos[c]).(lecciones := old(cursos[c].lecciones) + [l])]
      ensures lecciones == old(lecciones) && estudiantes == old(estudiantes)
    {
      cursos := cursos[c := cursos[c].(lecciones := cursos[c].lecciones + [l])];
    }

    /** `Curso.inscribir_estudiante`: a student not yet in the course is added
        to it and the course to the student; otherwise nothing changes. */
    method InscribirEstudiante(c: nat, e: nat)
      requires Valid() && c < |cursos| && e < |estudiantes|
      modifies this
      ensures Valid()
      ensures |cursos| == |old(cursos)| && |estudiantes| == |old(estudiantes)|
      ensures e in cursos[c].estudiantes && c in estudiantes[e].cursosInscritos
      ensures e in old(cursos[c].estudiantes) ==> cursos == old(cursos) && estudiantes == old(estudiantes)
      ensures e !in old(cursos[c].estudiantes) ==>
        && cursos == old(cursos)[c := old(cursos[c]).(estudiantes := old(cursos[c].estudiantes) + [e])]
        && estudiantes == old(estudiantes)[e := old(estudiantes[e]).(cursosInscritos := old(estudiantes[e].cursosInscritos) + [c])]
      ensures lecciones == old(lecciones)
    {
      if e !in cursos[c].estudiantes {
        cursos := cursos[c := cursos[c].(estudiantes := cursos[c].estudiantes + [e])];
        estudiantes := estudiantes[e := estudiantes[e].(cursosInscritos := estudiantes[e].cursosInscritos + [c])];
      }
    }

    /** `Estudiante.completar_leccion`: `ValueError` with nothing changed
        when the student is not in the course; otherwise the lesson joins
        the student's progress for the course's code once, and the lesson is
        marked completed. */
    method CompletarLeccion(e: nat, c: nat, l: nat) returns (r: Outcome<ErrorCurso>)
      requires Valid() && e < |estudiantes| && c < |cursos| && l < |lecciones|
      modifies this
      ensures Valid()
      ensures r.Fail? <==> c !in old(estudiantes[e].cursosInscritos)
      ensures r.Fail? ==>
        && r.error == NoInscrito
        && lecciones == old(lecciones) && cursos == old(cursos) && estudiantes == old(estudiantes)
      ensures r.Pass? ==>
        var prog := ProgresoEn(old(estudiantes[e]), old(cursos[c].codigo));
        && lecciones == old(lecciones)[l := old(lecciones[l]).(completada := true)]
        && estudiantes == old(estudiantes)[e := old(estudiantes[e]).(progreso :=
             old(estudiantes[e].progreso)[old(cursos[c].codigo) := if l in prog then prog else prog + [l]])]
        && cursos == old(cursos)
      ensures r.Pass? ==> l in ProgresoEn(estudiantes[e], cursos[c].codigo) && lecciones[l].completada
    {
      var est := estudiantes[e];
      if c !in est.cursosInscritos {
        return Fail(NoInscrito);
      }
      var codigo := cursos[c].codigo;
      var prog := ProgresoEn(est, codigo);
      if l !in prog {
        prog := prog + [l];
      }
      estudiantes := estudiantes[e := est.(progreso := est.progreso[codigo := prog])];
      lecciones := lecciones[l := lecciones[l].(completada := true)];
      r := Pass;
    }

    /** `Curso.porcentaje_avance`: the share of the course's lessons that the
        student has in progress and that are completed, as a percentage
        rounded to one decimal; 100 for a course without lessons. */
    function PorcentajeAvance(c: nat, e: nat): (r: real)
      reads this
      requires Valid() && c < |cursos| && e < |estudiantes|
      ensures 0.0 <= r <= 100.0
      ensures r == Porcentaje(Completadas(cursos[c].lecciones, ProgresoEn(estudiantes[e], cursos[c].codigo), lecciones), |cursos[c].lecciones|)
      ensures (forall j | 0 <= j < |cursos[c].lecciones| ::
                 cursos[c].lecciones[j] in ProgresoEn(estudiantes[e], cursos[c].codigo)) ==> r == 100.0
    {
      var prog := ProgresoEn(estudiantes[e], cursos[c].codigo);
      var ls := cursos[c].lecciones;
      assert forall j | 0 <= j < |prog| :: lecciones[prog[j]].completada;
      Porcentaje(Completadas(ls, prog, lecciones), |ls|)
    }

    /** `Estudiante.esta_certificado`: at least 80% of the course. */
    predicate EstaCertificado(e: nat, c: nat)
      reads this
      requires Valid() && c < |cursos| && e < |estudiantes|
      ensures |cursos[c].lecciones| == 0 ==> EstaCertificado(e, c)
    {
      PorcentajeAvance(c, e) >= UMBRAL_CERTIFICADO
    }

    /** A student holding every lesson of the course, or in a course with no
        lessons, is certified. */
    lemma CertificadoAlCompletar(e: nat, c: nat)
      requires Valid() && c < |cursos| && e < |estudiantes|
      requires forall j | 0 <= j < |cursos[c].lecciones| ::
        cursos[c].lecciones[j] in ProgresoEn(estudiantes[e], cursos[c].codigo)
      ensures EstaCertificado(e, c)
    {
    }
  }
}
