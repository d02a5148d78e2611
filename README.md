# Inventory store and course exercises, modelled in Dafny

This project models the behaviour of a set of Python exercises from an
introductory object-oriented programming course. The main part is the
**inventory store** in its three weekly versions, together with the
validated **product** they hold:

- `semana09/inventario.py` keeps a list of products in memory.
- `semana10/inventario_mejorado.py` keeps a list that is loaded from a JSON
  file when the store is created and rewritten in full after every change.
- `semana11/inventario.py` keeps a dictionary from product id to product,
  also loaded from and rewritten to a JSON file.
- `semana10/producto_mejorado.py` holds the product. Its constructor checks
  every field before it assigns any, and its setters refuse invalid values.

Beside the store, the project models the smaller object models of the course:

- library lending, parking, a course platform and a social network (semana04);
- a pulse sensor and an on/off medical device (semana02);
- temperature conversion (semana05);
- the weekly temperature average, in a structured and an object version (semana03).

Layout: one Dafny module per source file, plus shared modules.

- `Wrappers`: Option, Result and Outcome.
- `Texto`: Python's `strip`, `lower` and `in` on strings.
- `Redondeo`: Python's `round`, half to even, on exact reals.
- `Diccionario`: an insertion-ordered dict.
- `Archivo`: the backing file.
- `ListaProductos`: the list operations the three stores share.

Conventions of the model:

- **Objects whose fields the source updates are Dafny classes.** Each method
  is proved against a value-level function. For example,
  `InventarioLista.Inventario.ActualizarCantidad` is proved against
  `ListaProductos.ActualizarCantidadEnLista`. The function's own properties
  are proved as lemmas.
- **A stored product is a `Registro`.** It has the four fields of
  `to_dict()`. The `Producto` class models the object itself: `id` is a
  constant, and the three setters are methods.
- **The backing file is an `ArchivoJson` object.** It holds its content and
  whether reading and writing are permitted. The content is missing, text
  that is not JSON, or a decoded list of records.
- **Errors are values.** A `ValueError` or `PermissionError` that the source
  raises becomes the `Failure`/`Fail` case of a result. A boolean the source
  returns stays a boolean, inside `Success`.
- **Python's dict keeps insertion order, and so does the model.** It is a
  sequence of keys plus a map. Assigning to an existing key keeps the key
  in its place; a new key goes to the end.
- **In the semana04 models, objects that refer to each other are entries of
  lists or maps and refer to each other by position or key.** Two holders
  that share one Python object hold the same position. For example, a
  book's loan history and a user's active loans point at the same loan.
- **Time is a parameter of the operation that reads the clock.** Keyboard
  input is a sequence of entries, each a number or text that `float`
  rejects.

Where the code and the design description of the store disagree, the model
follows the code:

- **Duplicate ids on load, semana10.** The list store appends every record
  it loads and does not look for duplicate ids. A file that repeats an id
  therefore loads as two entries. Only the dictionary store of semana11
  keeps the last record for an id. See `ListaProductos.CargarListaDuplicada`
  and `InventarioDiccionario.CargarUltimoGana`.
- **A record the constructor refuses.** It ends the load. The generic
  exception handler catches the error, and the products loaded before that
  record stay in the store.

`semana09/inventario.py` and `semana11/inventario.py` import a
`producto.Producto` whose file is not part of this model. Both are modelled
with the product of `semana10/producto_mejorado.py` in its place. This is an
assumption: the two stores' own code is consistent with it.

## Model

| member | source | states |
|---|---|---|
| Texto.Strip | semana10/producto_mejorado.py:30 | the stripped name is the slice of the input between a blank prefix and a blank suffix, with no blank at either end |
| Texto.StripVacioSiEnBlanco | semana10/producto_mejorado.py:22 | `s.strip()` is empty exactly when every character of `s` is blank, so `not nombre or not nombre.strip()` is the blank test |
| Texto.StripIdempotente | semana10/producto_mejorado.py:30 | stripping a stripped name changes nothing |
| Texto.Minusculas | semana11/inventario.py:99 | `lower()` keeps the length and lowers each character independently |
| Texto.EsSubcadenaSiAparece | semana11/inventario.py:102 | the substring test `q in s` holds exactly when `q` occurs at some offset of `s` |
| Texto.VaciaEsSubcadena | semana11/inventario.py:102 | the empty query occurs in every name |
| Redondeo.RedondearEntero | semana02/tecnicas-programacion-biomedica/encapsulacion.py:27 | `round(x)` is within 0.5 of `x`, and a tie goes to the even integer |
| Redondeo.RedondearEnteroFijo | semana02/tecnicas-programacion-biomedica/encapsulacion.py:27 | an integer rounds to itself |
| Redondeo.RedondearEnteroMonotono | semana02/tecnicas-programacion-biomedica/encapsulacion.py:27 | rounding preserves order |
| Redondeo.RedondearEnteroEntre | semana02/tecnicas-programacion-biomedica/encapsulacion.py:26-27 | a value between two integers rounds into that interval |
| Redondeo.RedondearCentesimasIdempotente | semana10/producto_mejorado.py:32 | `round(round(x, 2), 2) == round(x, 2)`: a stored price is already whole cents |
| Redondeo.RedondearCentesimasCerca | semana10/producto_mejorado.py:32 | the stored price is within half a cent of the price given |
| Redondeo.RedondearCentesimasMonotono | semana04/EjemplosMundoReal_POO/2_sistema_parqueaderos.py:70 | rounding to cents preserves order |
| Redondeo.RedondearCentesimasNoNegativo | semana10/producto_mejorado.py:32 | a non-negative price rounds to a non-negative price |
| Redondeo.RedondearDecimasMonotono | semana04/EjemplosMundoReal_POO/3_plataforma_cursos.py:41 | rounding to one decimal preserves order |
| Redondeo.RedondearDecimasMultiplo | semana04/EjemplosMundoReal_POO/3_plataforma_cursos.py:41 | a whole number of tenths (such as 0.0, 80.0, 100.0) rounds to itself |
| Redondeo.RedondearEjemploPrecio | semana10/producto_mejorado.py:68 | a price of 799.999 is stored as 800.0 |
| Producto.Validar | semana10/producto_mejorado.py:20-27 | the checks run in order (id, then name, then quantity, then price); each error is reported exactly when its check is the first to fail, and none is reported iff all four fields are valid |
| Producto.CamposConstruidos | semana10/producto_mejorado.py:29-32 | the fields the constructor stores from valid arguments form a valid product |
| Producto.Crear | semana10/producto_mejorado.py:7-32 | construction fails exactly when a check fails, with that check's error; otherwise the product is valid and keeps the id and quantity given |
| Producto.CrearGuardaEntrada | semana10/producto_mejorado.py:30-32 | a constructed product stores the name stripped and the price within half a cent of the one given |
| Producto.CrearDesdeToDict | semana10/producto_mejorado.py:75-82 | rebuilding a valid product from its `to_dict()` record gives back the same product |
| Producto.ConNombre | semana10/producto_mejorado.py:52-56 | the name setter refuses exactly the blank names, with `NombreVacio`; otherwise it changes only the name and keeps the product valid |
| Producto.ConCantidad | semana10/producto_mejorado.py:58-62 | the quantity setter refuses exactly the negative values; otherwise it stores the value exactly and changes nothing else |
| Producto.ConPrecio | semana10/producto_mejorado.py:64-68 | the price setter refuses exactly the negative prices; otherwise it stores the price within half a cent and changes nothing else |
| Producto.SetterComoConstructor | semana10/producto_mejorado.py:52-68 | an accepted setter call yields what the constructor would build with the new value |
| Producto.CrearAceptado | semana10/producto_mejorado.py:29-32 | arguments that pass every check are stored with the name stripped and the price rounded to cents |
| Producto.Producto.Asignar | semana10/producto_mejorado.py:29-32 | the object built after the checks pass is valid and its `to_dict()` is the constructor's result |
| Producto.Producto.ToDict | semana10/producto_mejorado.py:75-82 | the fields as a record; for a valid product, the constructor applied to the object's own fields builds exactly that record |
| Producto.Producto.Nuevo | semana10/producto_mejorado.py:7-32 | a refused construction yields the first failing check's error and no object; an accepted one yields a fresh valid object |
| Producto.Producto.SetNombre | semana10/producto_mejorado.py:52-56 | a refused name leaves the object unchanged; an accepted one gives the object the setter's value; validity is preserved |
| Producto.Producto.SetCantidad | semana10/producto_mejorado.py:58-62 | a negative quantity leaves the object unchanged; otherwise the object takes the new quantity |
| Producto.Producto.SetPrecio | semana10/producto_mejorado.py:64-68 | a negative price leaves the object unchanged; otherwise the object takes the price rounded to cents |
| Diccionario.Poner | semana11/inventario.py:65 | `d[k] = v` maps `k` to `v`; an existing key keeps its place, a new one goes last; well-formedness is kept |
| Diccionario.Quitar | semana11/inventario.py:72 | `del d[k]` removes exactly the entry for `k` and leaves every other value; the remaining keys keep their order (the key list closes the gap where `k` stood, and an absent key changes nothing); well-formedness is kept |
| Diccionario.TamanoEsCardinal | semana11/inventario.py:112-113 | `len(d)` equals the number of entries |
| Archivo.ArchivoJson.Leer | semana11/inventario.py:21-22 | reading succeeds exactly when the file decodes and may be read; a missing file is reported as missing |
| Archivo.ArchivoJson.Escribir | semana11/inventario.py:51-56 | a permitted write replaces the whole content; a refused one raises `SinPermiso` and leaves the file as it was |
| ListaProductos.IndiceDeId | semana09/inventario.py:92-95 | the search finds the first product with the id, and none exactly when no product has it |
| ListaProductos.IndiceDeIdUnico | semana09/inventario.py:92-95 | with unique ids the product found is the only one with that id |
| ListaProductos.EliminarPrimero | semana10/inventario_mejorado.py:74-79 | removal drops exactly the first product with the id: the products before it stay in place and every later one moves up by one, as `list.remove` does; an absent id leaves the list as it is |
| ListaProductos.EliminarPrimeroUnico | semana09/inventario.py:42-46 | after removal from a list with unique ids no product has the id, ids stay unique, and every other product stays |
| ListaProductos.SoloCambiaConserva | semana09/inventario.py:59-62 | changing one product's field keeps ids unique and every product valid |
| ListaProductos.ActualizarCantidadEnLista | semana09/inventario.py:48-63 | an absent id, a refused quantity and an applied change are told apart; an applied change touches only the first product with the id and only its quantity |
| ListaProductos.ActualizarPrecioEnLista | semana09/inventario.py:65-80 | as for the quantity, with the price rounded within half a cent |
| ListaProductos.FiltrarPorNombreElementos | semana09/inventario.py:97-111 | the search returns exactly the products whose lower-cased name contains the stripped, lower-cased query |
| ListaProductos.FiltrarPorNombreMultiplicidad | semana09/inventario.py:107-111 | each matching product is returned exactly as often as the list holds it, and no other product at all |
| ListaProductos.FiltrarPorNombreConcatena | semana09/inventario.py:107-111 | the comprehension keeps list order: searching a list made of two parts gives the two parts' results in the same order |
| ListaProductos.FiltrarConsultaEnBlanco | semana11/inventario.py:99-103 | an empty or blank query matches every product |
| ListaProductos.CoincideSinMayusculas | semana09/inventario.py:107-111 | a name and its lower-cased form match the same queries |
| ListaProductos.Insertar | semana09/inventario.py:120 | inserting makes the list exactly one longer |
| ListaProductos.InsertarAgrega | semana09/inventario.py:120 | inserting adds exactly that product: the result is the list plus the product, as a multiset |
| ListaProductos.InsertarOrdenado | semana09/inventario.py:120 | inserting into a list sorted by id keeps it sorted |
| ListaProductos.OrdenarPorId | semana09/inventario.py:113-120 | `sorted(..., key=id)` is sorted by id and a permutation of the input |
| ListaProductos.OrdenarPorIdEstable | semana09/inventario.py:113-120 | the sort is stable, as `sorted` is: products with the same id keep their relative order |
| ListaProductos.InsertarConId | semana09/inventario.py:120 | an inserted product goes ahead of every product with the same id |
| ListaProductos.CargarLista | semana10/inventario_mejorado.py:24-31 | the load never yields more products than the file has records |
| ListaProductos.CargarListaPrefijo | semana10/inventario_mejorado.py:24-31 | the load keeps, in order, the products built from a prefix of the records, and stops exactly at the first record the constructor refuses |
| ListaProductos.CargarListaPaso | semana10/inventario_mejorado.py:24-31 | one record either ends the load or is kept ahead of the rest |
| ListaProductos.CargarListaValidos | semana10/inventario_mejorado.py:25-31 | every loaded product is valid |
| ListaProductos.CargarListaGuardada | semana10/inventario_mejorado.py:53-59 | loading the records a save wrote gives back the same list |
| ListaProductos.CargarListaDuplicada | semana10/inventario_mejorado.py:24-31 | a file holding a product twice loads as two entries with the same id |
| ListaProductos.CargarListaIdsUnicos | semana10/inventario_mejorado.py:24-31 | a file without repeated ids loads with unique ids |
| InventarioMemoria.Inventario.constructor | semana09/inventario.py:11-13 | a new inventory is empty |
| InventarioMemoria.Inventario.Buscar | semana09/inventario.py:92-95 | the loop returns the position of the first product with the id, or `None` exactly when none has it |
| InventarioMemoria.Inventario.BuscarPorId | semana09/inventario.py:82-95 | returns the first product with the id, or `None` exactly when no product has it |
| InventarioMemoria.Inventario.AgregarProducto | semana09/inventario.py:15-30 | refused exactly when the id is present; otherwise appended; ids stay unique |
| InventarioMemoria.Inventario.EliminarProducto | semana09/inventario.py:32-46 | `True` and size minus one exactly when the id was present; the list becomes EliminarPrimero's, so the other products keep their order |
| InventarioMemoria.Inventario.ActualizarCantidad | semana09/inventario.py:48-63 | `False` for an absent id, the setter's error with no change for a negative value, else the list with only that quantity changed |
| InventarioMemoria.Inventario.ActualizarPrecio | semana09/inventario.py:65-80 | as for the quantity, with the price setter |
| InventarioMemoria.Inventario.ObtenerTodos | semana09/inventario.py:113-120 | a permutation of the products sorted by id; the stored list is not changed |
| InventarioMemoria.Inventario.EstaVacio | semana09/inventario.py:122-128 | empty exactly when the size is 0 |
| InventarioMemoria.Inventario.BuscarPorNombre | semana09/inventario.py:97-111 | the search on the stored list: exactly the stored products that match, in list order, each as often as stored |
| InventarioMemoria.Inventario.ObtenerTamano | semana09/inventario.py:126-128 | the number of products held, 0 exactly for an empty inventory |
| InventarioLista.Cargados | semana10/inventario_mejorado.py:19-51 | a readable JSON file loads its records; a missing, unreadable or corrupt file loads nothing |
| InventarioLista.Inventario.constructor | semana10/inventario_mejorado.py:13-17 | a new store holds what its file loads; a missing file is created holding `[]` when writing is permitted |
| InventarioLista.CargarRegistros | semana10/inventario_mejorado.py:24-31 | the loop over the records yields exactly the load `CargarLista` defines |
| InventarioLista.Inventario.CargarDesdeArchivo | semana10/inventario_mejorado.py:19-51 | the loop appends the file's products in order, without looking for duplicates, and creates a missing file |
| InventarioLista.Inventario.GuardarEnArchivo | semana10/inventario_mejorado.py:53-64 | a permitted save makes the file hold exactly the list; a refused one raises and leaves the file as it was |
| InventarioLista.Inventario.Guardar | semana10/inventario_mejorado.py:53-64 | the save's outcome as a mutation reports it: `True` with the file consistent, or the persistence error |
| InventarioLista.Inventario.Buscar | semana10/inventario_mejorado.py:98-102 | the loop finds the first product with the id, or none exactly when no product has it |
| InventarioLista.Inventario.BuscarPorId | semana10/inventario_mejorado.py:98-102 | returns the first product in list order with the id, or `None` |
| InventarioLista.Inventario.AgregarProducto | semana10/inventario_mejorado.py:66-72 | `False` with no save when some product has the id; otherwise appended and then saved |
| InventarioLista.Inventario.EliminarProducto | semana10/inventario_mejorado.py:74-80 | the list becomes EliminarPrimero's (the products before the removed one in place, the later ones moved up by one) and is saved; `False` with no save for an absent id |
| InventarioLista.Inventario.ActualizarCantidad | semana10/inventario_mejorado.py:82-88 | `False` with no save for an absent id; the setter's error before any save; else only that quantity changes and the list is saved |
| InventarioLista.Inventario.ActualizarPrecio | semana10/inventario_mejorado.py:90-96 | as for the quantity, with the price setter |
| InventarioLista.Inventario.ObtenerTodos | semana10/inventario_mejorado.py:111-112 | a permutation of the products sorted by id |
| InventarioLista.Inventario.EstaVacio | semana10/inventario_mejorado.py:114-118 | empty exactly when the size is 0 |
| InventarioLista.Inventario.BuscarPorNombre | semana10/inventario_mejorado.py:104-109 | the search on the stored list: exactly the stored products that match, in list order, each as often as stored |
| InventarioLista.Inventario.ObtenerTamano | semana10/inventario_mejorado.py:117-118 | the number of products held, 0 exactly for an empty inventory |
| InventarioDiccionario.PonerTodos | semana11/inventario.py:23-31 | storing valid products under their ids keeps every key equal to its product's id |
| InventarioDiccionario.CargarDict | semana11/inventario.py:23-31 | the load keeps every key equal to its product's id and every product valid |
| InventarioDiccionario.CargarDictPaso | semana11/inventario.py:23-31 | one record either ends the load or is stored before the rest is loaded |
| InventarioDiccionario.CargarDictEsPonerTodos | semana11/inventario.py:23-31 | the dictionary load stores, in order, exactly the products the list load of semana10 appends |
| InventarioDiccionario.PonerTodosSinId | semana11/inventario.py:31 | an id no stored product carries keeps its entry |
| InventarioDiccionario.PonerTodosUltimoGana | semana11/inventario.py:31 | when products repeat an id, the last one stored is the one kept |
| InventarioDiccionario.CargarUltimoGana | semana11/inventario.py:23-31 | an id is loaded exactly when a loaded record has it, and holds the last such record |
| InventarioDiccionario.CargarValoresDesde | semana11/inventario.py:53 | loading the values from any split point rebuilds the dictionary, order included |
| InventarioDiccionario.CargarGuardado | semana11/inventario.py:48-54 | loading what a save wrote gives back the same dictionary, in the same order |
| InventarioDiccionario.Cargados | semana11/inventario.py:18-46 | a readable JSON file loads its records by id; a missing, unreadable or corrupt file loads nothing |
| InventarioDiccionario.ActualizarCantidadEnDict | semana11/inventario.py:77-83 | an absent id, a refused quantity and an applied change are told apart; the change touches only that entry's quantity and keeps the key order |
| InventarioDiccionario.ActualizarPrecioEnDict | semana11/inventario.py:85-91 | as for the quantity, with the price within half a cent and every other entry unchanged |
| InventarioDiccionario.EscenarioLaptop | semana11/inventario.py:60-91 | add product 1, set its price to 799.999 (stored as 800.0), remove it: the store is empty and saves `[]` |
| InventarioDiccionario.ValoresContiene | semana11/inventario.py:53 | every entry is among the saved values |
| InventarioDiccionario.Inventario.constructor | semana11/inventario.py:11-16 | a new store holds what its file loads; a missing file is created holding `[]` when writing is permitted |
| InventarioDiccionario.Inventario.CargarDesdeArchivo | semana11/inventario.py:18-46 | the loop stores each product under its id until a record is refused; an unreadable or corrupt file changes nothing |
| InventarioDiccionario.Inventario.GuardarEnArchivo | semana11/inventario.py:48-58 | a permitted save makes the file hold exactly the values in key order; a refused one raises and leaves the file |
| InventarioDiccionario.Inventario.Guardar | semana11/inventario.py:48-58 | the save's outcome as a mutation reports it: `True` with the file consistent, or the persistence error |
| InventarioDiccionario.Inventario.AgregarProducto | semana11/inventario.py:60-67 | `False` with no change and no save when the id is a key; otherwise stored last under its id and saved |
| InventarioDiccionario.Inventario.EliminarProducto | semana11/inventario.py:69-75 | `False` with no save for an absent id; otherwise the dictionary becomes Quitar's (only that entry leaves and the other keys keep their order, which the save writes), size minus one, and the store is saved |
| InventarioDiccionario.Inventario.ActualizarCantidad | semana11/inventario.py:77-83 | `False` with no save for an absent id; the setter's error before any save; else only that quantity changes and the store is saved |
| InventarioDiccionario.Inventario.ActualizarPrecio | semana11/inventario.py:85-91 | as for the quantity, with the price setter |
| InventarioDiccionario.Inventario.BuscarPorId | semana11/inventario.py:93-95 | `None` exactly when the id is not a key; otherwise the valid product stored under it |
| InventarioDiccionario.Inventario.BuscarPorNombre | semana11/inventario.py:97-103 | the search on the values in key order: exactly the stored products that match, in insertion order |
| InventarioDiccionario.Inventario.ObtenerTodos | semana11/inventario.py:105-107 | the values sorted by id, a permutation of them, as many as the store's size |
| InventarioDiccionario.Inventario.ObtenerTamano | semana11/inventario.py:112-113 | the number of entries |
| InventarioDiccionario.Inventario.EstaVacio | semana11/inventario.py:109-110 | empty exactly when there is no entry |
| Biblioteca.NuevoPrestamo | semana04/EjemplosMundoReal_POO/1_gestion_biblioteca.py:56-62 | a new loan is open, starts now and is due `dias` later |
| Biblioteca.Finalizado | semana04/EjemplosMundoReal_POO/1_gestion_biblioteca.py:64-66 | finalising records the return time and changes nothing else |
| Biblioteca.VencimientoDePrestamo | semana04/EjemplosMundoReal_POO/1_gestion_biblioteca.py:68-70 | an open loan is overdue exactly after its due time and stays overdue; a finalised loan is never overdue |
| Biblioteca.SinLibroElementos | semana04/EjemplosMundoReal_POO/1_gestion_biblioteca.py:51 | the filtered active loans are exactly those not of the book |
| Biblioteca.SinLibroMultiplicidad | semana04/EjemplosMundoReal_POO/1_gestion_biblioteca.py:51 | each loan not of the book is kept exactly as often as it was listed, and no loan of the book |
| Biblioteca.SinLibroConcatena | semana04/EjemplosMundoReal_POO/1_gestion_biblioteca.py:51 | the comprehension keeps the order of the active loans: filtering two parts gives the two parts' results in order |
| Biblioteca.EstaVencido | semana04/EjemplosMundoReal_POO/1_gestion_biblioteca.py:68-70 | a returned loan is never overdue, and an open one only after its due time |
| Biblioteca.Biblioteca.AgregarLibro | semana04/EjemplosMundoReal_POO/1_gestion_biblioteca.py:9-15 | a new book is available with no loans |
| Biblioteca.Biblioteca.RegistrarUsuario | semana04/EjemplosMundoReal_POO/1_gestion_biblioteca.py:38-42 | a new user has no active loans |
| Biblioteca.Biblioteca.PrestarA | semana04/EjemplosMundoReal_POO/1_gestion_biblioteca.py:17-24 | an available book gets one new loan at the end of its history and becomes lent; a lent book fails with nothing changed; "lent iff last loan open" is kept |
| Biblioteca.Biblioteca.Devolver | semana04/EjemplosMundoReal_POO/1_gestion_biblioteca.py:26-29 | a lent book with loans finalises its last loan and becomes available; otherwise nothing changes |
| Biblioteca.UsuarioValidoAgregar | semana04/EjemplosMundoReal_POO/1_gestion_biblioteca.py:44-47 | a loan made to the user can join the user's active loans, and every active loan stays the user's |
| Biblioteca.UsuarioValidoSinLibro | semana04/EjemplosMundoReal_POO/1_gestion_biblioteca.py:49-51 | dropping the loans of one book leaves only loans that are the user's |
| Biblioteca.Biblioteca.TomarPrestado | semana04/EjemplosMundoReal_POO/1_gestion_biblioteca.py:44-47 | on success the new loan is appended, the book becomes lent with that loan last in its history, no other book changes, and the loan joins the user's active loans; on failure nothing changes |
| Biblioteca.Biblioteca.DevolverLibro | semana04/EjemplosMundoReal_POO/1_gestion_biblioteca.py:49-51 | a lent book has its last loan finalised at the given time and becomes available, with no other book or loan changed, and an available one leaves books and loans untouched; the user's active loans become SinLibro's, and no other user changes |
| Parqueadero.NuevoEspacio | semana04/EjemplosMundoReal_POO/2_sistema_parqueaderos.py:21-25 | a new space is free and empty |
| Parqueadero.PrimerDisponible | semana04/EjemplosMundoReal_POO/2_sistema_parqueaderos.py:56-60 | the first admitting space from a position on, or none exactly when no later space admits the type |
| Parqueadero.Admite | semana04/EjemplosMundoReal_POO/2_sistema_parqueaderos.py:28 | an occupied space admits no vehicle, and a free universal space admits every type |
| Parqueadero.TarifaHora | semana04/EjemplosMundoReal_POO/2_sistema_parqueaderos.py:43-47 | every hourly rate, an unknown type's included, is non-negative |
| Parqueadero.Importe | semana04/EjemplosMundoReal_POO/2_sistema_parqueaderos.py:69-70 | the fee is non-negative, and any stay up to half an hour is billed as half an hour |
| Parqueadero.ImporteMonotono | semana04/EjemplosMundoReal_POO/2_sistema_parqueaderos.py:70 | a longer stay never costs less |
| Parqueadero.ImporteTarifas | semana04/EjemplosMundoReal_POO/2_sistema_parqueaderos.py:69-70 | an unknown type pays 0; a car for 2 h pays 4.0; a bicycle for a quarter hour pays the half-hour minimum |
| Parqueadero.Parqueadero.constructor | semana04/EjemplosMundoReal_POO/2_sistema_parqueaderos.py:49-51 | a new parking has no spaces |
| Parqueadero.Parqueadero.RegistrarVehiculo | semana04/EjemplosMundoReal_POO/2_sistema_parqueaderos.py:9-12 | a new vehicle has no entry time |
| Parqueadero.Parqueadero.AgregarEspacio | semana04/EjemplosMundoReal_POO/2_sistema_parqueaderos.py:53-54 | the space goes to the end of the list |
| Parqueadero.Parqueadero.Ocupar | semana04/EjemplosMundoReal_POO/2_sistema_parqueaderos.py:27-33 | succeeds exactly when the space is free and universal or of the vehicle's type; then it holds the vehicle, which records its entry; otherwise nothing changes |
| Parqueadero.Parqueadero.Liberar | semana04/EjemplosMundoReal_POO/2_sistema_parqueaderos.py:35-38 | an occupied space is emptied; a free one is left alone |
| Parqueadero.Parqueadero.BuscarEspacioDisponible | semana04/EjemplosMundoReal_POO/2_sistema_parqueaderos.py:56-60 | the first space in insertion order that admits the type, or `None` exactly when none does |
| Parqueadero.Parqueadero.CalcularTarifa | semana04/EjemplosMundoReal_POO/2_sistema_parqueaderos.py:62-70 | 0 for a vehicle that never entered; otherwise the fee for the given hours |
| Parqueadero.BuscarYOcupar | semana04/EjemplosMundoReal_POO/2_sistema_parqueaderos.py:79-81 | a space found for a vehicle's type always takes that vehicle |
| Cursos.Completadas | semana04/EjemplosMundoReal_POO/3_plataforma_cursos.py:40 | the count is at most the number of lessons, all of them when all are in progress and completed, none when none is in progress |
| Cursos.CompletadasEsEnProgreso | semana04/EjemplosMundoReal_POO/3_plataforma_cursos.py:40 | when every lesson in progress is completed, the completion flag adds nothing to the count |
| Cursos.Porcentaje | semana04/EjemplosMundoReal_POO/3_plataforma_cursos.py:34-41 | between 0 and 100; 100 with no lessons or all completed; 0 with none completed |
| Cursos.PorcentajeMonotono | semana04/EjemplosMundoReal_POO/3_plataforma_cursos.py:41 | more completed lessons never lower the percentage |
| Cursos.PorcentajeEjemplo | semana04/EjemplosMundoReal_POO/3_plataforma_cursos.py:41 | one of two lessons is 50.0, below the certificate; four of five is 80.0 |
| Cursos.Plataforma.NuevaLeccion | semana04/EjemplosMundoReal_POO/3_plataforma_cursos.py:8-12 | a new lesson is not completed |
| Cursos.Plataforma.NuevoCurso | semana04/EjemplosMundoReal_POO/3_plataforma_cursos.py:19-24 | a new course has no lessons and no students |
| Cursos.Plataforma.NuevoEstudiante | semana04/EjemplosMundoReal_POO/3_plataforma_cursos.py:45-49 | a new student has no courses and no progress |
| Cursos.Plataforma.MarcarCompletada | semana04/EjemplosMundoReal_POO/3_plataforma_cursos.py:14-15 | only the lesson's flag becomes true |
| Cursos.Plataforma.AgregarLeccion | semana04/EjemplosMundoReal_POO/3_plataforma_cursos.py:26-27 | the lesson goes to the end of the course |
| Cursos.Plataforma.InscribirEstudiante | semana04/EjemplosMundoReal_POO/3_plataforma_cursos.py:29-32 | idempotent; enrolment is recorded on both sides |
| Cursos.Plataforma.CompletarLeccion | semana04/EjemplosMundoReal_POO/3_plataforma_cursos.py:51-59 | fails with nothing changed exactly when the student is not enrolled; otherwise the lesson is in the progress once and is completed |
| Cursos.Plataforma.PorcentajeAvance | semana04/EjemplosMundoReal_POO/3_plataforma_cursos.py:34-41 | between 0 and 100, and 100 once every lesson of the course is in the student's progress |
| Cursos.Plataforma.EstaCertificado | semana04/EjemplosMundoReal_POO/3_plataforma_cursos.py:61-63 | in a course without lessons every enrolled student is certified |
| Cursos.Plataforma.CertificadoAlCompletar | semana04/EjemplosMundoReal_POO/3_plataforma_cursos.py:61-63 | a student holding every lesson of the course is certified |
| RedSocial.QuitarPrimero | semana04/EjemplosMundoReal_POO/4_red_social_simple.py:25-26 | `list.remove` leaves a list without the element unchanged, and otherwise makes it one shorter |
| RedSocial.QuitarPrimeroMultiset | semana04/EjemplosMundoReal_POO/4_red_social_simple.py:25-26 | exactly one occurrence of the element goes, when there is one |
| RedSocial.QuitarPrimeroElementos | semana04/EjemplosMundoReal_POO/4_red_social_simple.py:25-26 | every other element stays, and a list without repetitions loses the element entirely |
| RedSocial.FiltradosElementos | semana04/EjemplosMundoReal_POO/4_red_social_simple.py:41-43 | exactly the posts visible to the user, or all of them with `incluir_privadas` |
| RedSocial.VisiblePara | semana04/EjemplosMundoReal_POO/4_red_social_simple.py:70-76 | the author's followers see every post, and only a private post can be hidden, and never from its author |
| RedSocial.FeedDe | semana04/EjemplosMundoReal_POO/4_red_social_simple.py:34-45 | the feed starts with all of the user's own posts |
| RedSocial.FiltradosTodos | semana04/EjemplosMundoReal_POO/4_red_social_simple.py:42 | when every post is visible to the user, the filter keeps all of them in order, with or without `incluir_privadas` |
| RedSocial.DeSeguidosIgnoraPrivacidad | semana04/EjemplosMundoReal_POO/4_red_social_simple.py:40-43 | with follow relations recorded on both sides, the visibility test drops no post of a followed user |
| RedSocial.FeedIgnoraPrivacidad | semana04/EjemplosMundoReal_POO/4_red_social_simple.py:34-45 | with follow relations recorded on both sides, `incluir_privadas` does not change the feed |
| RedSocial.Seguido | semana04/EjemplosMundoReal_POO/4_red_social_simple.py:16-20 | `b` is appended to `a`'s followed list and `a` to `b`'s follower list; nothing else of any user changes |
| RedSocial.NoSeguido | semana04/EjemplosMundoReal_POO/4_red_social_simple.py:22-26 | `list.remove` takes `b` from `a`'s followed list and `a` from `b`'s follower list; nothing else of any user changes |
| RedSocial.SeguirConserva | semana04/EjemplosMundoReal_POO/4_red_social_simple.py:16-20 | following keeps references valid, relations symmetric and lists without repetitions |
| RedSocial.SeguirReferencias | semana04/EjemplosMundoReal_POO/4_red_social_simple.py:16-20 | following keeps references valid |
| RedSocial.SeguirSimetrico | semana04/EjemplosMundoReal_POO/4_red_social_simple.py:16-20 | following keeps `b in a.siguiendo iff a in b.seguidores` |
| RedSocial.SeguirSinRepetidos | semana04/EjemplosMundoReal_POO/4_red_social_simple.py:18-20 | following someone not yet followed adds no repetition |
| RedSocial.DejarDeSeguirConserva | semana04/EjemplosMundoReal_POO/4_red_social_simple.py:22-26 | unfollowing keeps references valid, relations symmetric and lists without repetitions |
| RedSocial.DejarDeSeguirReferencias | semana04/EjemplosMundoReal_POO/4_red_social_simple.py:22-26 | unfollowing keeps every follower and followed position valid |
| RedSocial.DejarDeSeguirSimetrico | semana04/EjemplosMundoReal_POO/4_red_social_simple.py:22-26 | unfollowing someone followed keeps `b in a.siguiendo iff a in b.seguidores` |
| RedSocial.DejarDeSeguirSinRepetidos | semana04/EjemplosMundoReal_POO/4_red_social_simple.py:22-26 | unfollowing adds no repetition |
| RedSocial.NuevoUsuarioConserva | semana04/EjemplosMundoReal_POO/4_red_social_simple.py:9-14 | a user with no posts and no relations joins without breaking references, symmetry or the absence of repetitions |
| RedSocial.PublicarConserva | semana04/EjemplosMundoReal_POO/4_red_social_simple.py:28-32 | a post listed at the end of its author's posts keeps references valid, relations symmetric and lists without repetitions |
| RedSocial.Red.NuevoUsuario | semana04/EjemplosMundoReal_POO/4_red_social_simple.py:9-14 | a new user has no posts and no relations |
| RedSocial.Red.Seguir | semana04/EjemplosMundoReal_POO/4_red_social_simple.py:16-20 | idempotent; the first call records the relation on both sides |
| RedSocial.Red.DejarDeSeguir | semana04/EjemplosMundoReal_POO/4_red_social_simple.py:22-26 | removes both sides of an existing relation; otherwise nothing changes |
| RedSocial.Red.Publicar | semana04/EjemplosMundoReal_POO/4_red_social_simple.py:28-32 | exactly one new post by the user, at the end of the user's posts |
| RedSocial.Red.DarLike | semana04/EjemplosMundoReal_POO/4_red_social_simple.py:60-62 | the post's likes grow by exactly one and nothing else changes |
| RedSocial.Red.Comentar | semana04/EjemplosMundoReal_POO/4_red_social_simple.py:64-68 | exactly one comment is appended to the post |
| RedSocial.Red.Feed | semana04/EjemplosMundoReal_POO/4_red_social_simple.py:34-45 | the nested loops build the feed: own posts, then each followed user's filtered posts in follow order |
| RedSocial.Red.Visible | semana04/EjemplosMundoReal_POO/4_red_social_simple.py:70-76 | a stored post is visible exactly when public, or to its author, or to a follower of its author |
| RedSocial.AgregarFiltrados | semana04/EjemplosMundoReal_POO/4_red_social_simple.py:41-43 | the inner loop appends exactly the filtered posts of one followed user |
| Sensor.Aceptada | semana02/tecnicas-programacion-biomedica/encapsulacion.py:26-27 | a value is accepted exactly when it is a number in [30, 220], and is stored rounded, within [30, 220] |
| Sensor.AceptadaEntera | semana02/tecnicas-programacion-biomedica/encapsulacion.py:27 | a whole number in range is stored as given; 72.5 becomes 72 and 73.5 becomes 74 |
| Sensor.SensorPulso.constructor | semana02/tecnicas-programacion-biomedica/encapsulacion.py:11-14 | a new sensor is disconnected with frequency 0 |
| Sensor.SensorPulso.Frecuencia | semana02/tecnicas-programacion-biomedica/encapsulacion.py:16-19 | `None` exactly when disconnected; otherwise a permitted frequency |
| Sensor.SensorPulso.SetFrecuencia | semana02/tecnicas-programacion-biomedica/encapsulacion.py:21-29 | disconnected: `PermissionError`, no change; connected: the rounded value if accepted, else `ValueError` with no change |
| Sensor.SensorPulso.Conectar | semana02/tecnicas-programacion-biomedica/encapsulacion.py:35-38 | only the connection flag changes |
| Sensor.SensorPulso.Desconectar | semana02/tecnicas-programacion-biomedica/encapsulacion.py:40-44 | disconnected with the frequency reset to 0 |
| Dispositivo.TrasEncender | semana02/tecnicas-programacion-biomedica/abstraccion.py:24-29 | an off device comes on; any other state is kept |
| Dispositivo.TrasApagar | semana02/tecnicas-programacion-biomedica/abstraccion.py:31-36 | a device that is on goes off; any other state is kept |
| Dispositivo.EncenderApagar | semana02/tecnicas-programacion-biomedica/abstraccion.py:17-36 | on then off returns an off device to off; each transition is idempotent and keeps the state known |
| Dispositivo.DispositivoMedico.constructor | semana02/tecnicas-programacion-biomedica/abstraccion.py:14-17 | a new device is off |
| Dispositivo.DispositivoMedico.Encender | semana02/tecnicas-programacion-biomedica/abstraccion.py:24-29 | the device ends on, and reports a change exactly when it was off |
| Dispositivo.DispositivoMedico.Apagar | semana02/tecnicas-programacion-biomedica/abstraccion.py:31-36 | the device ends off, and reports a change exactly when it was on |
| Conversion.CelsiusAFahrenheit | semana05/conversion_unidades.py:13-15 | −40 is the only temperature with the same number in both scales, and above it the Fahrenheit number is the larger |
| Conversion.CelsiusAKelvin | semana05/conversion_unidades.py:18-20 | the Kelvin number is non-negative exactly at or above absolute zero, and always 273.15 above the Celsius number |
| Conversion.EsTemperaturaFisicamentePosible | semana05/conversion_unidades.py:36-38 | possible exactly when the Fahrenheit reading is at least −459.67 |
| Conversion.PosibleSiKelvinNoNegativo | semana05/conversion_unidades.py:36-38 | a temperature is physically possible exactly when its Kelvin value is not negative |
| Conversion.ConversionesCrecientes | semana05/conversion_unidades.py:13-20 | both conversions are strictly increasing |
| Conversion.FahrenheitDesdeKelvin | semana05/conversion_unidades.py:13-20 | °F = K × 9/5 − 459.67 |
| Conversion.PuntosDeReferencia | semana05/conversion_unidades.py:10-20 | freezing and boiling water, absolute zero, and −40 fall where the scales put them |
| ClimaTradicional.Validas | semana03/clima_tradicional.py:13-20 | the readings kept are at most the entries typed |
| ClimaTradicional.ValidasPaso | semana03/clima_tradicional.py:15-20 | a number typed is kept, anything else is skipped |
| ClimaTradicional.Semana | semana03/clima_tradicional.py:9-21 | a week is read exactly when the input holds at least 7 numbers, and is its first 7 numbers, in day order |
| ClimaTradicional.IngresarTemperaturas | semana03/clima_tradicional.py:4-21 | the nested retry loops return the week's readings as `Semana` defines them |
| ClimaTradicional.PrefijoDeValidas | semana03/clima_tradicional.py:13-20 | the readings of a prefix of the input are a prefix of its readings |
| ClimaTradicional.CalcularPromedio | semana03/clima_tradicional.py:24-34 | 0.0 for no readings; otherwise the average added once per reading gives back the sum |
| ClimaTradicional.VecesProducto | semana03/clima_tradicional.py:34 | adding a value once per reading is multiplying it by the count |
| ClimaTradicional.SumaAcotada | semana03/clima_tradicional.py:34 | the sum lies between any lower bound and any upper bound of the readings, each added once per reading |
| ClimaTradicional.PromedioEntreExtremos | semana03/clima_tradicional.py:34 | the average lies between the lowest and the highest reading |
| ClimaTradicional.PromedioConstante | semana03/clima_tradicional.py:34 | equal readings average to that reading |
| ClimaPoo.AlgunaAlMenos | semana03/clima_poo.py:62 | `any(t >= umbral ...)` holds exactly when some reading reaches the threshold |
| ClimaPoo.ClimaSemanal.constructor | semana03/clima_poo.py:10-13 | a new record has no readings |
| ClimaPoo.ClimaSemanal.IngresarTemperaturas | semana03/clima_poo.py:15-28 | appends exactly the first 7 numbers in day order when the input holds at least 7; when input runs out, `FinDeEntrada` is raised and the readings already read stay |
| ClimaPoo.ClimaSemanal.ObtenerPromedio | semana03/clima_poo.py:30-38 | 0.0 without readings; otherwise between the lowest and the highest reading; the same value as `calcular_promedio` of the structured version |
| ClimaPoo.ClimaSemanalConUmbral.constructor | semana03/clima_poo.py:56-58 | no readings, with the given threshold, 30.0 when none is given |
| ClimaPoo.ClimaSemanalConUmbral.IngresarTemperaturas | semana03/clima_poo.py:15-28 | the inherited input loop, on the record it extends |
| ClimaPoo.ClimaSemanalConUmbral.HayTemperaturaAlta | semana03/clima_poo.py:60-62 | holds exactly when some reading is at least the threshold |
| ClimaPoo.AltaSiMaximoAlcanza | semana03/clima_poo.py:60-62 | some reading reaches the threshold exactly when the highest one does |

## Left out

**Input, output and the runtime**

- JSON text is not modelled. A file is missing, undecodable, or a decoded list of records with the four fields already typed. A record missing a key, or holding a value of the wrong type, is not modelled; the source would raise `KeyError` or `TypeError` there and end the load through the generic handler. JSON that decodes to something other than a list is not modelled either.
- Unexpected exceptions are not modelled. These are the generic `except Exception` branches of load and save, other than a record the constructor refuses. The only save error modelled is a refused write.
- All `print` diagnostics, the messages that methods return as strings, and `__str__` are left out. Wherever a message says whether something changed, the model returns a boolean instead.
- The console programs are not part of this model: `main.py`, `semana08/Dashboard.py`, and the keyboard loop `obtener_temperatura_valida` of `semana05/conversion_unidades.py`. Neither are the demonstration files of semana02, semana06 and semana07 beyond the sensor and the device, or the usage blocks under `if __name__ == "__main__"`.
- `DispositivoMedico.iniciar_diagnostico` and its `MonitorECG` implementation only return a string, so they are left out.
- `datetime.now()` is a parameter (`ahora`) of the operations that read it. Wall-clock time and `timedelta` are not modelled.
- `Parqueadero.Parqueadero.CalcularTarifa`: only the branch with the hours given is modelled. The branch that measures the stay from the clock is left out.

**Numbers and strings**

- Floating point is modelled as exact reals. Python's `round` is modelled on the exact value, so a case where a binary float is not the decimal it prints is not captured. Besides prices, this covers the parking fee, the course percentage and the pulse reading.
- `float(text)` accepting `nan` and `inf` is not modelled.
- `Texto.Minusculas`: lower-casing covers ASCII and Latin-1 capitals only. Full Unicode case mapping, including characters whose lower case is longer, is left out.
- `Sensor.Aceptada`: `bool` values, which Python treats as `int`, are not distinguished from other numbers.

**Objects and references**

- Aliasing of product objects is not modelled. The stores hold product values. In the source, a caller that keeps the object returned by `buscar_por_id` can change a stored product behind the store's back; the model cannot show this.
- The semana04 models use positions and keys instead of heap objects. Python's `in` on objects compares by identity. So a library book, user or parking vehicle is registered once under a fresh key. Courses are told apart by position, while progress stays keyed by course code.
- The backing file is an object with a content field, not a ghost sequence. This makes it the same file across calls and lets methods state what a refused write leaves behind.
- `ClimaPoo.ClimaSemanalConUmbral`: inheritance is modelled by composition. The subclass holds the record it extends and delegates to it. The overriding `mostrar_resultado` only prints, so it is left out.
