# Technician routing and station sales: a verified model

This project models the logic of a field-service planning tool written in
Python with pandas and Pyomo. Spreadsheets of technicians, locations and
customers are turned into typed records. The records are turned into a
mixed-integer technician-routing model: index sets, parameters, fixed arcs,
nine constraint families and a weighted objective. A solver is run on the
model, its variable values are read back into reports, and its results and
configuration are flattened for an experiment tracker. Two data-preparation
utilities complete the picture:

- staff are matched to their nearest location, with an optional radius;
- fuel-station sales are consolidated into per-township demand shares.

One Dafny module stands for each source file:

| module | file | what it holds |
|---|---|---|
| `Seqs` | `seqs.dfy` | sequence helpers: first-occurrence de-duplication (a Pyomo `Set` built from a list, `drop_duplicates(keep='first')`), `dict(items)` as `ToMap` (the later item wins), sums |
| `Linear` | `linear.dfy` | the decision variables `x u y t z xa xb g`, their domains, and a linear constraint `LinCon(terms, op, rhs)` with its satisfaction predicate |
| `Preprocessing` | `preprocessing.dfy` | `Technician`, `Job`, `Customer` records and the `Preprocessor` class with its four loaders |
| `InputHandler` | `input_handler.dfy` | district demand (normalise, de-duplicate, scale) and warehouse capacity |
| `Model` | `model.dfy` | the routing formulation as specification functions, and the `OptimisationModel` class whose generator methods are proved to emit exactly those families |
| `Solver` | `solver.dfy` | option copying, the status/termination decision table and the `optimised` flag; the solver is an oracle |
| `Postprocessing` | `postprocessing.dfy` | warehouse tables, the assignment report, the route walk and utilisation ratios |
| `MlflowLogger` | `mlflow_logger.dfy` | recursive `flatten`, the first-element unwrapping, the params/metrics split and the configuration whitelist |
| `DistanceCalculation` | `distance_calculation.dfy` | staff/location split, nearest location (first minimum), radius relabelling and output assembly |
| `StationSales` | `station_sales.dfy` | per-station totals, the inner join, closest township, per-township totals, filtering and proportions |

Where the source mutates state, the model does too. `OptimisationModel` and
`Preprocessor` are classes whose methods append to sequence fields. They
carry loops with invariants and are proved equal to a specification function
of their inputs. Each specification function then has lemmas that state what
it means: how many constraints a family has, where each one sits, and what
it demands of a candidate solution. Geodesic distance (haversine, geopy) is
a function parameter. The solver's report and every variable value are
parameters too.

## Model

| member | source | states |
|---|---|---|
| Preprocessing.Technicians | src/optimisation_model/preprocessing.py:72-75 | one technician per sheet row after the first two; none when there are two rows or fewer |
| Preprocessing.TechniciansFromRows | src/optimisation_model/preprocessing.py:72-75 | the i-th technician is built from the name, capacity and depot cells of row i+2, so row order is kept |
| Preprocessing.MarkedIndicesSpec | src/optimisation_model/preprocessing.py:86 | the technician indices collected for a job column are increasing, in range, and are exactly those whose cell in that column is 1 |
| Preprocessing.CoveredByMarked | src/optimisation_model/preprocessing.py:86 | a job's coveredBy lists the technicians at the marked indices, in technician-list order |
| Preprocessing.JobsFromColumns | src/optimisation_model/preprocessing.py:85-90 | one job per job column, the j-th built from column j: priority from row 0, duration from row 1, coveredBy from the marked rows |
| Preprocessing.FillRowSymmetric | src/optimisation_model/preprocessing.py:101-105 | filling one row of the upper triangle keeps the distance map symmetric |
| Preprocessing.FillRowsSymmetric | src/optimisation_model/preprocessing.py:101-105 | filling the first n rows keeps the distance map symmetric |
| Preprocessing.DistanceMapSymmetric | src/optimisation_model/preprocessing.py:100-105 | dist[(a,b)] and dist[(b,a)] are both present or both absent, and equal when present |
| Preprocessing.FillRowKeys | src/optimisation_model/preprocessing.py:102-105 | a row fill adds both orientations of every pair (i, j) with i < j and no key outside the columns |
| Preprocessing.FillRowsKeys | src/optimisation_model/preprocessing.py:101-105 | after n rows, every pair (i, j) with i < n and i < j is present in both orientations, and every key is a pair of columns or was there before |
| Preprocessing.DistanceMapDomain | src/optimisation_model/preprocessing.py:100-105 | (a, b) is a key of dist exactly when a and b are both location columns |
| Preprocessing.FillRowAt | src/optimisation_model/preprocessing.py:102-105 | with distinct columns, a row fill sets (l_i, l_q) and (l_q, l_i) to cell (i, q) for later q, and leaves every other key as it was |
| Preprocessing.FillRowsAt | src/optimisation_model/preprocessing.py:101-105 | after n rows, the value at (l_p, l_q) is the upper-triangle cell (min, max) when min(p, q) < n, and the earlier value otherwise |
| Preprocessing.DistanceMapValues | src/optimisation_model/preprocessing.py:100-105 | dist[(l,l)] = 0, and for column positions p < q, dist[(l_p,l_q)] = dist[(l_q,l_p)] = cell(p, q) |
| Preprocessing.FillRowUpperOnly | src/optimisation_model/preprocessing.py:102-105 | a row fill depends only on the cells strictly above the diagonal |
| Preprocessing.DistanceMapReadsUpperTriangle | src/optimisation_model/preprocessing.py:100-105 | two sheets that agree above the diagonal give the same distance map |
| Preprocessing.CustomersForMembers | src/optimisation_model/preprocessing.py:115-119 | a customer row yields a customer exactly for each job whose name equals the row's job cell, carrying that job record |
| Preprocessing.CustomersForCount | src/optimisation_model/preprocessing.py:115-119 | with distinct job names a row yields one customer if its job is known and none otherwise (silently dropped) |
| Preprocessing.CustomersMembers | src/optimisation_model/preprocessing.py:114-120 | the customer list holds exactly the customers built from some row and a job of that row's name |
| Preprocessing.CustomersRowOrder | src/optimisation_model/preprocessing.py:114-120 | the customers from a prefix of the rows are a prefix of the customer list, so output follows row order |
| Preprocessing.Preprocessor.constructor | src/optimisation_model/preprocessing.py:51-63 | the four loaders run in order: technicians, jobs over those technicians, the distance map, customers over those jobs |
| Preprocessing.Preprocessor.ProcessTechnicians | src/optimisation_model/preprocessing.py:71-75 | the loop appends exactly the technicians of the sheet rows |
| Preprocessing.Preprocessor.ProcessJobs | src/optimisation_model/preprocessing.py:83-90 | the loop appends exactly one job per job column |
| Preprocessing.Preprocessor.ProcessLocation | src/optimisation_model/preprocessing.py:98-105 | the nested loops leave dist equal to the distance map of the sheet, and record the columns |
| Preprocessing.Preprocessor.ProcessCustomer | src/optimisation_model/preprocessing.py:113-120 | the nested loops append exactly the customers of the rows matched against the job list |
| InputHandler.Scale | src/optimisation_model/input_handler.py:24 | every row keeps its township and has its proportion divided by the total |
| InputHandler.ScaleSum | src/optimisation_model/input_handler.py:24 | the scaled column sums to the old sum divided by the total |
| InputHandler.NormaliseMeaning | src/optimisation_model/input_handler.py:24 | with a non-zero column total, each proportion is divided by the total over all rows, duplicates included |
| InputHandler.NormaliseSumsToOne | src/optimisation_model/input_handler.py:24 | the normalised proportions sum to 1 |
| InputHandler.NormalisedNonNegative | src/optimisation_model/input_handler.py:24 | non-negative inputs stay non-negative after normalising |
| InputHandler.TotalPositive | src/optimisation_model/input_handler.py:24 | a non-zero total of non-negative proportions is positive |
| InputHandler.DropDuplicateTownshipsMeaning | src/optimisation_model/input_handler.py:25 | the survivors have distinct townships, cover every township, are each the first row of their township and keep first-occurrence order |
| InputHandler.DistrictProportionsAtMostOne | src/optimisation_model/input_handler.py:24-25 | without re-normalisation, the surviving proportions sum to 1 minus the dropped duplicates' proportions, hence at most 1 |
| InputHandler.WithDemand | src/optimisation_model/input_handler.py:26 | each row is kept and its demand is its proportion times the total demand |
| InputHandler.WithDemandSum | src/optimisation_model/input_handler.py:26 | the demands sum to the proportions' sum times the total demand |
| InputHandler.DistrictsDemandAtMostTotal | src/optimisation_model/input_handler.py:24-26 | with non-negative inputs the district demands sum to at most the total demand of 100000 |
| InputHandler.DistrictsDataLosesDemand | src/optimisation_model/input_handler.py:24-26 | two rows of the same township with equal proportions leave half of the total demand undistributed |
| InputHandler.DistrictsDataDedupFirstMeaning | src/optimisation_model/input_handler.py:24-26 | de-duplicating before normalising distributes the whole total demand over distinct townships |
| InputHandler.WarehouseOptions | src/optimisation_model/input_handler.py:35-36 | the row count and every original column are unchanged; only the capacity is added |
| InputHandler.WarehouseCapacity | src/optimisation_model/input_handler.py:35 | capacity is area times storage height, so it equals the area at the configured height of 1 |
| Model.CustomerEntry | src/optimisation_model/model.py:30-37 | every customer parameter dictionary has an entry per customer name, taken from a record of that name |
| Model.TechnicianEntry | src/optimisation_model/model.py:29-31 | every technician parameter dictionary has an entry per technician name, taken from a record of that name |
| Model.PreprocessedConsistent | src/optimisation_model/model.py:24 | the loader's distance map and columns index every customer location and depot that is a column |
| Model.BuildCustomerParams | src/optimisation_model/model.py:22-37 | every customer in C has all its parameters and its location is in L |
| Model.BuildTechnicianParams | src/optimisation_model/model.py:21-31 | every technician in K has a capacity and a depot, and the depot is in L |
| Model.BuildLocations | src/optimisation_model/model.py:23-25 | the depots D and the customer locations J are in L, and dist is defined on L × L |
| Model.BuildWellformed | src/optimisation_model/model.py:21-37 | every lookup the constraint generators make is defined |
| Model.ArcsAtMembers | src/optimisation_model/model.py:125-127 | the arcs fixed for technician k at depot d are exactly y[i,d,k] and y[d,i,k] for i in L |
| Model.ArcsForMembers | src/optimisation_model/model.py:123-127 | the arcs fixed for k are exactly those into or out of a depot other than k's own |
| Model.FixedArcsMembers | src/optimisation_model/model.py:122-127 | an arc is fixed exactly when it is forbidden for some technician |
| Model.TechnicianArcsFixed | src/optimisation_model/model.py:122-127 | y[a,b,k] is fixed iff one end is a depot other than k's and the other end is in L, so no arc between k's own depot and a non-depot location is fixed |
| Model.TechnicianJobCount | src/optimisation_model/model.py:133-135 | one assignment-or-gap constraint per customer, in C order |
| Model.TechnicianJobRowHolds | src/optimisation_model/model.py:134-135 | the constraint holds iff Σ over canCover(j) of x[j,k] plus g[j] equals 1 |
| Model.TechnicianJobHolds | src/optimisation_model/model.py:133-135 | the family holds iff that equation holds for every customer |
| Model.UncoverableCustomerIsGap | src/optimisation_model/model.py:133-135 | a customer that nobody can cover has g[j] = 1 in every solution of the family |
| Model.OneTechnicianCount | src/optimisation_model/model.py:142-144 | one at-most-one-technician constraint per customer, in C order |
| Model.OneTechnicianHolds | src/optimisation_model/model.py:142-144 | the family holds iff Σ over K of x[j,k] ≤ 1 for every customer |
| Model.CapacityCount | src/optimisation_model/model.py:153-154 | one capacity constraint per technician, in K order |
| Model.CapacityRowHolds | src/optimisation_model/model.py:151-154 | the constraint holds iff the working time Σ dur·x + Σ dist·y is at most cap[k]·u[k] |
| Model.CapacityHolds | src/optimisation_model/model.py:151-154 | the family holds iff that bound holds for every technician |
| Model.DistTermsNonNegative | src/optimisation_model/model.py:152 | with non-negative distances and domain-respecting values, the travel part of the working time is non-negative |
| Model.DurTermsBound | src/optimisation_model/model.py:151 | with non-negative durations, each customer's service time is at most the service part of the working time |
| Model.WorkingTimeBoundsService | src/optimisation_model/model.py:151-152 | each customer's service time is at most the whole working time |
| Model.UnusedTechnicianServesNobody | src/optimisation_model/model.py:151-154 | with u[k] = 0, the capacity constraint forces x[j,k] = 0 for every customer of positive duration |
| Model.ToursOfSnoc | src/optimisation_model/model.py:162-166 | the tour rows of one customer grow by the two rows of each technician in turn |
| Model.TourSnoc | src/optimisation_model/model.py:161-166 | the tour family grows by one customer's block in turn |
| Model.TourCount | src/optimisation_model/model.py:161-166 | the tour family has 2·\|K\|·\|C\| constraints |
| Model.TourAt | src/optimisation_model/model.py:161-166 | the constraint at 2·\|K\|·i + 2·n + r is row r of customer C[i] and technician K[n] |
| Model.TourRowsHold | src/optimisation_model/model.py:163-166 | a (customer, technician) pair holds iff the in-degree and out-degree at the customer's location both equal x[j,k] |
| Model.ToursOfHold | src/optimisation_model/model.py:162-166 | one customer's block holds iff the degrees equal x[j,k] for every technician |
| Model.TourHolds | src/optimisation_model/model.py:161-166 | the family holds iff the degrees equal x[j,k] for every customer and technician |
| Model.SameDepotCount | src/optimisation_model/model.py:172-176 | the same-depot family has 2·\|K\| constraints, the two rows of K[n] at 2n and 2n+1 |
| Model.SameDepotHolds | src/optimisation_model/model.py:172-176 | the family holds iff the arcs entering and leaving each technician's depot from J each sum to u[k] |
| Model.BigMMeaning | src/optimisation_model/model.py:184-188 | a stored big-M row holds iff t_to ≥ t_from + rhs − M·(1 − Σ users) |
| Model.TemporalCustomerForSnoc | src/optimisation_model/model.py:183-188 | one customer's temporal rows grow by one predecessor's row in turn |
| Model.TemporalCustomerSnoc | src/optimisation_model/model.py:182-188 | the family grows by one customer's block in turn |
| Model.TemporalCustomerForAt | src/optimisation_model/model.py:183-188 | one customer's block has \|C\| rows, the y-th for predecessor C[y] |
| Model.TemporalCustomerCount | src/optimisation_model/model.py:182-188 | the family has \|C\|² rows, including i = j; the row at \|C\|·x + y is for customer C[x] and predecessor C[y] |
| Model.TemporalCustomerMeaning | src/optimisation_model/model.py:184-188 | a row holds iff t[loc j] ≥ t[loc i] + dur[i] + dist − M·(1 − Σ_k y[loc i, loc j, k]), with M = 600 + dur[i] + dist |
| Model.TemporalCustomerBinds | src/optimisation_model/model.py:184-188 | when the arc is used (Σ = 1), the row holds iff t[loc j] ≥ t[loc i] + dur[i] + dist |
| Model.TemporalCustomerSlack | src/optimisation_model/model.py:184-188 | when the arc is unused (Σ = 0), the row holds iff t[loc j] ≥ t[loc i] − 600 |
| Model.TemporalCustomerNoSelfLoop | src/optimisation_model/model.py:182-188 | the i = j row forbids every self-loop at a customer of positive duration |
| Model.TemporalDepotForSnoc | src/optimisation_model/model.py:195-199 | one customer's depot rows grow by one depot's row in turn |
| Model.TemporalDepotSnoc | src/optimisation_model/model.py:194-199 | the family grows by one customer's block in turn |
| Model.TemporalDepotForAt | src/optimisation_model/model.py:195-199 | one customer's block has \|D\| rows, the y-th for depot D[y] |
| Model.TemporalDepotCount | src/optimisation_model/model.py:194-199 | the family has \|D\|·\|C\| rows; the row at \|D\|·x + y is for customer C[x] and depot D[y] |
| Model.TemporalDepotMeaning | src/optimisation_model/model.py:196-199 | a row holds iff t[loc j] ≥ t[d] + dist − M·(1 − Σ_k y[d, loc j, k]), with M = 600 + dist |
| Model.TemporalDepotBinds | src/optimisation_model/model.py:196-199 | when the arc is used, the row holds iff t[loc j] ≥ t[d] + dist |
| Model.TemporalDepotSlack | src/optimisation_model/model.py:196-199 | when the arc is unused, the row holds iff t[loc j] ≥ t[d] − 600 |
| Model.TimeWindowCount | src/optimisation_model/model.py:205-207 | the family has 2·\|C\| rows, the two rows of C[n] at 2n and 2n+1 |
| Model.TimeWindowRowsHold | src/optimisation_model/model.py:206-207 | a customer's rows hold iff t[loc] + xa ≥ tstart and t[loc] − xb ≤ tend |
| Model.TimeWindowHolds | src/optimisation_model/model.py:205-207 | the family holds iff both bounds hold for every customer |
| Model.LatenessCount | src/optimisation_model/model.py:213-215 | one lateness row per customer, in C order |
| Model.LatenessRowHolds | src/optimisation_model/model.py:214-215 | the row holds iff z ≥ t[loc] + dur − tDue |
| Model.LatenessHolds | src/optimisation_model/model.py:213-215 | the family holds iff that bound holds for every customer |
| Model.LatenessTermsSnoc | src/optimisation_model/model.py:107-108 | the first sum grows by z[j]·priority[j] per customer |
| Model.CorrectionTermsSnoc | src/optimisation_model/model.py:107-109 | the second sum grows by 0.01·6100·priority[j] on xa[j] and on xb[j] |
| Model.GapTermsSnoc | src/optimisation_model/model.py:107-110 | the third sum grows by 6100·priority[j]·g[j] |
| Model.ObjectiveStep | src/optimisation_model/model.py:101-112 | adding a customer adds priority·(z + 61·(xa + xb) + 6100·g) to the objective's value |
| Model.ObjectiveValue | src/optimisation_model/model.py:101-112 | the objective's value is Σ_j priority[j]·(z[j] + 61·(xa[j] + xb[j]) + 6100·g[j]) |
| Model.OptimisationModel.FromRecords | src/optimisation_model/model.py:12-17 | building from records gives the sets and parameters of the records, optimised false, and objective and constraints built |
| Model.OptimisationModel.constructor | src/optimisation_model/model.py:12-17 | a new model has optimised false and its objective, fixed arcs and nine families built |
| Model.OptimisationModel.BuildObjectiveAndConstraints | src/optimisation_model/model.py:61-65 | from an empty model, the objective and every family equal their specifications |
| Model.OptimisationModel.Objective | src/optimisation_model/model.py:101-112 | the three-sum accumulation loop yields the objective terms, whose value is the weighted cost |
| Model.OptimisationModel.AddConstraints | src/optimisation_model/model.py:71-97 | the nine constraint generators run in the source's order and each list grows by exactly its family |
| Model.OptimisationModel.AddAssignmentConstraints | src/optimisation_model/model.py:72-79 | the job, one-technician and capacity lists grow by exactly their families |
| Model.OptimisationModel.AddRoutingConstraints | src/optimisation_model/model.py:81-85 | the tour and same-depot lists grow by exactly their families |
| Model.OptimisationModel.AddTimingConstraints | src/optimisation_model/model.py:87-97 | the two temporal, time-window and lateness lists grow by exactly their families |
| Model.OptimisationModel.TechnicianConstraint | src/optimisation_model/model.py:118-127 | the triple loop fixes exactly the forbidden depot arcs |
| Model.OptimisationModel.AddTechnicianJob | src/optimisation_model/model.py:129-135 | the loop appends exactly the assignment-or-gap family |
| Model.OptimisationModel.AddOneTechnician | src/optimisation_model/model.py:138-144 | the loop appends exactly the at-most-one family |
| Model.OptimisationModel.AddTechnicianCapacity | src/optimisation_model/model.py:146-154 | capLHS gets one working-time expression per technician and the loop appends exactly the capacity family |
| Model.OptimisationModel.AddCapacityRows | src/optimisation_model/model.py:153-154 | the loop over the technicians appends, in order, one row capLHS[k] <= cap[k] * u[k] each, which is exactly the capacity family |
| Model.OptimisationModel.AddTechnicianTour | src/optimisation_model/model.py:157-166 | the nested loop appends exactly the tour family |
| Model.OptimisationModel.AddTechnicianTourOf | src/optimisation_model/model.py:162-166 | the inner loop appends one customer's tour rows |
| Model.OptimisationModel.AddSameDepot | src/optimisation_model/model.py:168-176 | the loop appends exactly the same-depot family |
| Model.OptimisationModel.AddTemporalCustomer | src/optimisation_model/model.py:178-188 | the nested loop appends exactly the customer temporal family |
| Model.OptimisationModel.AddTemporalCustomerTo | src/optimisation_model/model.py:183-188 | the inner loop appends one customer's rows |
| Model.OptimisationModel.AddTemporalDepot | src/optimisation_model/model.py:190-199 | the nested loop appends exactly the depot temporal family |
| Model.OptimisationModel.AddTemporalDepotTo | src/optimisation_model/model.py:195-199 | the inner loop appends one customer's depot rows |
| Model.OptimisationModel.AddTimeWindow | src/optimisation_model/model.py:201-207 | the loop appends exactly the time-window family |
| Model.OptimisationModel.AddLateness | src/optimisation_model/model.py:209-215 | the loop appends exactly the lateness family |
| Solver.SolverHandle.constructor | src/optimisation_model/solver.py:25 | a new solver object has the chosen name and no options |
| Solver.SolverHandle.SetOptions | src/optimisation_model/solver.py:27-28 | the loop leaves the options as the old ones updated by the items, the later item winning |
| Solver.Decide | src/optimisation_model/solver.py:30-41 | results are written iff the report is ok and optimal; ValueError is raised iff the termination is infeasible; a crash is re-raised naming the solver; every other report is accepted |
| Solver.Solve | src/optimisation_model/solver.py:24-43 | the options are the chosen entry (none without an entry); optimised becomes true iff nothing is raised, and is unchanged otherwise |
| Solver.ChosenOptionsCopied | src/optimisation_model/solver.py:26-28 | every item of the chosen entry reaches the solver unless a later item has the same key |
| Postprocessing.SelectionRows | src/optimisation_model/postprocessing.py:22-27 | one row per warehouse in W order, selected iff x[w]'s value is exactly 1 |
| Postprocessing.WarehouseSelection | src/optimisation_model/postprocessing.py:19-29 | the concatenation loop yields that table |
| Postprocessing.AssignmentTableEntries | src/optimisation_model/postprocessing.py:32-38 | the table has a column per warehouse and a row per township, and entry (t, w) is the value of x_assign[w,t] |
| Postprocessing.WarehouseColumn | src/optimisation_model/postprocessing.py:34-36 | the inner loop fills one warehouse's column |
| Postprocessing.WarehouseTownshipAssignment | src/optimisation_model/postprocessing.py:31-39 | the nested loop yields the assignment table |
| Postprocessing.Ratio | src/optimisation_model/postprocessing.py:87 | with a positive total the ratio times the total is the used amount; otherwise the ratio is 0 |
| Postprocessing.RatioBounds | src/optimisation_model/postprocessing.py:87 | a used amount between 0 and the total gives a ratio in [0, 1] |
| Postprocessing.Utilisation | src/optimisation_model/postprocessing.py:84-88 | one ratio per technician: with a positive capacity the ratio times the capacity is the working time, otherwise the ratio is 0 |
| Postprocessing.SumByMonotone | src/optimisation_model/postprocessing.py:90-91 | pointwise used ≤ total gives Σ used ≤ Σ total |
| Postprocessing.UtilisationBounds | src/optimisation_model/postprocessing.py:84-92 | loads within [0, total] give every ratio and the aggregate ratio in [0, 1] |
| Postprocessing.CapLHSNonNegative | src/optimisation_model/postprocessing.py:85 | the working time read back is non-negative |
| Postprocessing.LoadWithinCapacity | src/optimisation_model/postprocessing.py:85-86 | under its capacity constraint, a technician's working time lies in [0, cap] |
| Postprocessing.SolvedUtilisationBounds | src/optimisation_model/postprocessing.py:84-92 | in any solution of the capacity family every reported utilisation and the total utilisation lie in [0, 1] |
| Postprocessing.TechnicianLoop | src/optimisation_model/postprocessing.py:47-55 | the loop over technicians builds the text the source builds, notes included |
| Postprocessing.AssignmentData | src/optimisation_model/postprocessing.py:43-56 | one line per customer as written, stopping at a read of an unbound text |
| Postprocessing.ReportStops | src/optimisation_model/postprocessing.py:43-56 | once the text is unbound at a read, the later customers add nothing |
| Postprocessing.Repeat | src/optimisation_model/postprocessing.py:50-55 | n repetitions of a note sequence have n times its length |
| Postprocessing.UnassignedReported | src/optimisation_model/postprocessing.py:44-45 | a customer with g > 0.5 is reported as assigned to nobody |
| Postprocessing.AssignedReported | src/optimisation_model/postprocessing.py:47-55 | the last technician m with x > 0.5 is named, followed by the notes repeated once for m and once for each technician after it |
| Postprocessing.NotesRepeated | src/optimisation_model/postprocessing.py:47-55 | a late customer served by the first of two technicians gets its lateness note twice |
| Postprocessing.LastAssigned | src/optimisation_model/postprocessing.py:47-49 | the technician found has x > 0.5, and none is found iff no technician has x > 0.5 |
| Postprocessing.AssignmentLines | src/optimisation_model/postprocessing.py:43-56 | the corrected report has one line per customer, each line being that customer's own line |
| Postprocessing.CustomerLineServed | src/optimisation_model/postprocessing.py:44-55 | in a solution of the assignment family with g ≤ 0.5, the line names a technician of K with x = 1, followed by at most three notes |
| Postprocessing.CustomerHopsChained | src/optimisation_model/postprocessing.py:66-69 | the customer pass only moves along arcs with y > 0.5 and keeps the route's start |
| Postprocessing.DepotHopChained | src/optimisation_model/postprocessing.py:70-74 | the depot pass only moves along an arc with y > 0.5 and keeps the route's start |
| Postprocessing.WalkChained | src/optimisation_model/postprocessing.py:65-76 | every walk follows arcs with y > 0.5 from its start, and a closed walk ends at the depot |
| Postprocessing.RouteFollowsArcs | src/optimisation_model/postprocessing.py:61-79 | a technician is reported unused iff u ≤ 0.5; otherwise the route starts at its depot, follows used arcs, and ends at the depot when it closes |
| Postprocessing.CustomerHopsLoop | src/optimisation_model/postprocessing.py:66-69 | the loop over customers performs the customer pass |
| Postprocessing.DepotHopLoop | src/optimisation_model/postprocessing.py:70-74 | the loop over depots performs the depot pass, stopping at the first used arc |
| Postprocessing.TechnicianRouteWalk | src/optimisation_model/postprocessing.py:62-79 | the while loop computes the technician's route |
| Postprocessing.TechniciansData | src/optimisation_model/postprocessing.py:58-79 | the loop over technicians yields their routes |
| MlflowLogger.KeyExtends | src/optimisation_model/mlflow_logger.py:82 | the parent key is a prefix of every key made under it |
| MlflowLogger.KeyEndsWith | src/optimisation_model/mlflow_logger.py:82 | the item's own key is a suffix of the key made from it |
| MlflowLogger.FlattenItems | src/optimisation_model/mlflow_logger.py:79-87 | the accumulation loop, recursing into nested mappings, yields the flattened items |
| MlflowLogger.FlattenKeepsLeaves | src/optimisation_model/mlflow_logger.py:85-86 | every non-mapping value is kept under its joined key |
| MlflowLogger.FlattenHasNoDict | src/optimisation_model/mlflow_logger.py:83-86 | no flattened value is a mapping |
| MlflowLogger.FlattenKeysUnder | src/optimisation_model/mlflow_logger.py:82-86 | every flattened key extends the joined key of one of the items it came from |
| MlflowLogger.FlattenFlat | src/optimisation_model/mlflow_logger.py:80-87 | on items with no mapping values and no parent, flattening returns the items unchanged |
| MlflowLogger.FlattenTwice | src/optimisation_model/mlflow_logger.py:80-87 | flattening flattened items changes nothing |
| MlflowLogger.FlattenIdempotent | src/optimisation_model/mlflow_logger.py:79-87 | flatten(flatten(d)) = flatten(d) on dictionaries |
| MlflowLogger.FlattenLastWins | src/optimisation_model/mlflow_logger.py:79-87 | when flattened keys collide, the value of the last item with that key is the one in the dictionary |
| MlflowLogger.FlattenCollision | src/optimisation_model/mlflow_logger.py:87 | an instance of the collision rule: `{"a_b": 1, "a": {"b": 2}}` flattens to `{"a_b": 2}` |
| MlflowLogger.Unwrapped | src/optimisation_model/mlflow_logger.py:33-34 | unwrapping succeeds iff every value has a first element, and then replaces each value by it, keys and order kept |
| MlflowLogger.UnwrapResults | src/optimisation_model/mlflow_logger.py:33-34 | the overwriting loop yields the unwrapped results |
| MlflowLogger.ParamsMetricsPartition | src/optimisation_model/mlflow_logger.py:36-37 | params and metrics are disjoint, together give the flattened dictionary, and params are exactly the string values |
| MlflowLogger.StringResultIsParam | src/optimisation_model/mlflow_logger.py:33-37 | a top-level result whose first element is a string is logged as a parameter, unless a later key collides with it |
| MlflowLogger.SplitAt | src/optimisation_model/mlflow_logger.py:81-86 | a leaf item is emitted immediately before the items that follow it |
| MlflowLogger.SuffixOf | src/optimisation_model/mlflow_logger.py:81-86 | flattening from a later item yields a suffix of flattening from an earlier one |
| MlflowLogger.Filter | src/optimisation_model/mlflow_logger.py:63 | an attribute is kept iff it was present and its name passes the test |
| MlflowLogger.WhitelistNotDunder | src/optimisation_model/mlflow_logger.py:62-73 | removing dunder names never removes a whitelisted attribute |
| MlflowLogger.ConfigKeysWhitelisted | src/optimisation_model/mlflow_logger.py:62-74 | every logged configuration key starts with one of the six whitelisted names |
| MlflowLogger.ConfigLeavesLogged | src/optimisation_model/mlflow_logger.py:62-74 | a whitelisted attribute with a non-mapping value is logged under its own name |
| DistanceCalculation.Matrix | src/utils/distance_calculation_algorithm.py:22-26 | the matrix entry is infinite exactly on the diagonal |
| DistanceCalculation.Positions | src/utils/distance_calculation_algorithm.py:29-32 | staff are exactly the rows whose name starts with "staff", in input order |
| DistanceCalculation.Partition | src/utils/distance_calculation_algorithm.py:29-32 | staff and locations partition the input |
| DistanceCalculation.Nearest | src/utils/distance_calculation_algorithm.py:35 | the chosen candidate is a minimum, strictly below every earlier candidate (first minimum) |
| DistanceCalculation.NeverOwnCandidate | src/utils/distance_calculation_algorithm.py:26 | a staff row is never among its own candidates, so every candidate entry is finite |
| DistanceCalculation.NearestLocation | src/utils/distance_calculation_algorithm.py:35 | the assigned location is a location row |
| DistanceCalculation.NearestLocationMinimal | src/utils/distance_calculation_algorithm.py:35-38 | the assigned location's distance is the minimum over all locations and strictly below every earlier location's |
| DistanceCalculation.Relabel | src/utils/distance_calculation_algorithm.py:41-42 | the label is the nearest location or "Unassigned"; without a radius it is the nearest location; with one, a finite distance at most the radius keeps it, and a greater or infinite distance gives "Unassigned" |
| DistanceCalculation.StaffTable | src/utils/distance_calculation_algorithm.py:35-42 | one row per staff member; failure exactly when there is staff but no location |
| DistanceCalculation.StaffTableRow | src/utils/distance_calculation_algorithm.py:35-42 | a staff row holds its coordinates, its relabelled nearest location and the minimum distance |
| DistanceCalculation.RadiusFilter | src/utils/distance_calculation_algorithm.py:41-42 | no radius changes nothing, a distance above the radius gives "Unassigned", and equality keeps the location |
| DistanceCalculation.JoinByStaff | src/utils/distance_calculation_algorithm.py:47-49 | corrected: one output row per staff row |
| DistanceCalculation.CalculateMeaning | src/utils/distance_calculation_algorithm.py:29-49 | corrected: the i-th output row is the i-th staff member's name and columns beside its staff row |
| DistanceCalculation.StaffFirstAgrees | src/utils/distance_calculation_algorithm.py:47-49 | when every staff row precedes every location row, the positional join is correct |
| DistanceCalculation.PositionalJoinMislabels | src/utils/distance_calculation_algorithm.py:47-49 | with a location before a staff member, the as-written output gives the staff result the location's name |
| StationSales.GroupSales | src/data_preprocessing/station_sales_consolidation.py:23-24 | a value is among a group's sales iff some record of that (id, product, region) group has it as its numeric sale |
| StationSales.GroupSalesCount | src/data_preprocessing/station_sales_consolidation.py:23-24 | a group has one sale per record of the group whose sale is numeric, so `mean` divides by that count |
| StationSales.MeanBetween | src/data_preprocessing/station_sales_consolidation.py:24 | the mean of a non-empty group lies between its bounds |
| StationSales.StationSalesOf | src/data_preprocessing/station_sales_consolidation.py:24-28 | one pivoted row per distinct (region, id), each with one figure per product column |
| StationSales.ProductsMeaning | src/data_preprocessing/station_sales_consolidation.py:25-26 | the product columns are distinct and are exactly the product labels of the records |
| StationSales.StationSalesMeaning | src/data_preprocessing/station_sales_consolidation.py:24-28 | each row is a station of the records; its figure for a product is the mean of that (id, product, region) group's numeric sales, missing exactly when the group has none; its total is the sum of the present figures |
| StationSales.StationMeanBetween | src/data_preprocessing/station_sales_consolidation.py:24 | every pivoted figure lies between any bounds of its group's numeric sales |
| StationSales.StationRowsUnique | src/data_preprocessing/station_sales_consolidation.py:25 | pivoted rows have distinct (region, id) and every record's station has a row |
| StationSales.StationTotalBounds | src/data_preprocessing/station_sales_consolidation.py:24-28 | with non-negative sales, the total is non-negative and at least each product's mean |
| StationSales.SumPresentBounds | src/data_preprocessing/station_sales_consolidation.py:28 | a sum that skips missing values is non-negative and at least each present value |
| StationSales.Matches | src/data_preprocessing/station_sales_consolidation.py:50 | a site matches exactly the stations whose id is its fuel account |
| StationSales.InnerJoin | src/data_preprocessing/station_sales_consolidation.py:50 | the join holds exactly the (site, station) pairs with matching fuel account and id |
| StationSales.ClosestIndex | src/data_preprocessing/station_sales_consolidation.py:80-88 | the index found is a district at minimal distance |
| StationSales.ClosestTownship | src/data_preprocessing/station_sales_consolidation.py:79-89 | no township iff there is no district; otherwise the township of a district at minimal distance |
| StationSales.AssignedNearest | src/data_preprocessing/station_sales_consolidation.py:56-58 | every joined row is assigned the township of a district at minimal distance from its site |
| StationSales.NoStationNoTotal | src/data_preprocessing/station_sales_consolidation.py:64-65 | a township with no assigned station has total 0 |
| StationSales.TownshipTotalNonNegative | src/data_preprocessing/station_sales_consolidation.py:64 | non-negative station totals give non-negative township totals |
| StationSales.TownshipTotalsConserve | src/data_preprocessing/station_sales_consolidation.py:64-65 | with distinct townships and every row assigned to one, the township totals sum to the station totals |
| StationSales.Kept | src/data_preprocessing/station_sales_consolidation.py:65-69 | a district is kept iff it has an assigned station and a positive total |
| StationSales.KeptSum | src/data_preprocessing/station_sales_consolidation.py:65-69 | the kept totals sum to the township totals, dropped townships adding nothing |
| StationSales.Shares | src/data_preprocessing/station_sales_consolidation.py:72 | one share per kept district |
| StationSales.PositiveSum | src/data_preprocessing/station_sales_consolidation.py:72 | the kept totals have a positive sum, so the division is defined |
| StationSales.ShareBounds | src/data_preprocessing/station_sales_consolidation.py:72 | each proportion lies in (0, 1] and keeps its district and total |
| StationSales.ShareTotal | src/data_preprocessing/station_sales_consolidation.py:72 | the proportions sum to 1 |
| StationSales.SharesTotalSum | src/data_preprocessing/station_sales_consolidation.py:72 | the shares keep the kept totals |
| StationSales.AssignedRows | src/data_preprocessing/station_sales_consolidation.py:50-58 | every assigned row has a non-negative total and a township that is a district's |
| StationSales.MergeDataMeaning | src/data_preprocessing/station_sales_consolidation.py:45-72 | every output row is a district with a positive total and a proportion in (0, 1], and the proportions sum to 1 |
| StationSales.MergeDataConserves | src/data_preprocessing/station_sales_consolidation.py:45-72 | with non-negative sales and distinct townships, the output totals sum to the total sales of the joined stations |

## Left out

- The MIP solve itself: `SolverFactory`, `opt.solve`, the `detect_fixed_vars` and `deactivate_trivial_constraints` transformations, and `results.write`. They are library calls, so `Solver.Solve` takes the solver's report (or crash) as a parameter and proves nothing about optimality.
- The Pyomo object machinery (`Set`, `Param`, `Var`, `ConstraintList`). Sets are de-duplicated lists, parameters are maps (the later record wins) and constraints are `LinCon` values. Variables are values of an `Assignment`; `PositiveReals` variables are taken as non-negative, the bound the solver receives.
- The warehouse-location formulation (the sets W and T, `x_assign`, despatchers, scenarios) is not part of this model. The postprocessing tables take W, T and the variable values as parameters.
- File loading and saving, MLflow calls, logging, the configuration module and `main.py` are I/O or orchestration. The sheets are parameters, and the two configuration constants used (total demand 100000 and storage height 1) are constants of `InputHandler`.
- Geodesic distance (haversine, geopy) is a function parameter `dist`, and all numbers are Dafny `real`. Floating-point rounding, and the `round(…, 2)` in the utilisation log, are not modelled.
- `__assignment_data`, `__technicians_data` and `__utilization_data` are modelled although the constructor at src/optimisation_model/postprocessing.py:15-17 does not call them.
- Postprocessing.TechnicianRouteWalk: the walk is bounded by a `fuel` step count. A walk that has not returned to the depot within it is reported `Unfinished`, where the source loops forever.
- Postprocessing.RouteFollowsArcs: states that the route follows used arcs, not that it visits every customer served by the technician.
- MlflowLogger.UnwrapResults: the source overwrites the loaded dictionary in place; the model returns a new item list. A value without a first element (Python's IndexError/TypeError) is modelled as `None`.
- MlflowLogger.FlattenItems: a mapping value is recognised by its constructor. The `collections.MutableMapping` name lookup is not modelled.
- MlflowLogger.ConfigParams: `inspect.getmembers` is modelled as a list of (name, value) items without routines, each name once.
- InputHandler.DistrictsDataDedupFirstMeaning: a column total of 0 (pandas would give NaN or infinity) is modelled as `None`.
- DistanceCalculation.StaffTable: `idxmin` over no locations raises in pandas; it is modelled as `None`. Rows are identified by position, so duplicate names (which `dm.loc` would expand) are not modelled.
- StationSales.StationSalesOf: rows and product columns are in first-occurrence order, while `groupby` and `pivot` sort them. Only set-like properties are proved, and none depend on the order. A group with no numeric sale has a missing mean that the total skips, as `sum` does.
- Model.OneTechnician: with no technicians and at least one customer, `quicksum` over an empty K is 0 and `0 <= 1` is the Python value True, so `ConstraintList.add` raises ValueError for a trivial Boolean constraint (src/optimisation_model/model.py:142-144). The model emits the always-true row `LinCon([], Le, 1.0)` instead and does not model that error.
- StationSales.ClosestTownship: which of several equally close districts is chosen is not stated. `sort_values` uses an unstable sort.
- StationSales.Shares: requires positive totals, which `Kept` guarantees; for an empty kept list there are no proportions to sum.
- Preprocessing.Preprocessor.constructor: sheet cells are typed by column (a capacity is a real, a job cell is compared with 1). A non-rectangular sheet, which pandas would reject, is excluded by `ReadableTechnicians` and `ReadableLocations`.
- Preprocessing.ReadableTechnicians: requires the priority and duration rows (at least two rows) when there are job columns. The IndexError that `iloc[0, 3+j]` and `iloc[1, 3+j]` raise on a shorter sheet (src/optimisation_model/preprocessing.py:85-90) is not modelled.
- Preprocessing.ReadableLocations: requires a row for every upper-triangle cell (`|cells| + 1 >= |columns|`). The IndexError that `locations.iloc[i, j]` raises on a sheet with fewer rows (src/optimisation_model/preprocessing.py:101-105) is not modelled.
- Model.OptimisationModel.FromRecords: requires `Consistent`, that every customer location and depot is a column of the distance sheet. The KeyError the source raises on `dist` for one that is not (src/optimisation_model/model.py:126, 163, 173, 184) is not modelled.
- Model.OptimisationModel.constructor: requires `Wellformed`, so the same KeyError on a missing distance or parameter is not modelled.
- StationSales.StationSalesOf: product labels are any strings. The ValueError that `int(x)` raises when renaming a label that is not an integer literal (src/data_preprocessing/station_sales_consolidation.py:27), for example "diesel" or "1.0", is not modelled.

## Findings

| source | as written | input that shows it | evidently intended | confidence | as-written member | corrected member |
|---|---|---|---|---|---|---|
| src/optimisation_model/input_handler.py:24-26 | proportions are divided by the total over all rows, then duplicate townships are dropped, so the dropped rows' share of demand is lost | two rows for township "A", each with proportion 1: one survives with proportion 0.5 and demand 50000 of 100000 | the demand of the surviving townships sums to the total demand | not executed | InputHandler.DistrictsDataLosesDemand | InputHandler.DistrictsDataDedupFirstMeaning |
| src/optimisation_model/postprocessing.py:47-55 | the lateness and correction notes are inside the loop over technicians, so each is appended once for the assigned technician and once for each technician after it | customer "c" served by "k1" of ["k1", "k2"] with z = 5 is reported with its lateness note twice | one line per customer: the assigned technician, then each note once | not executed | Postprocessing.NotesRepeated | Postprocessing.CustomerLineServed |
| src/utils/distance_calculation_algorithm.py:47-49 | the staff results are concatenated beside the first rows of the whole input, staff or not | rows ["A" (a location), "staff1"]: the single output row is named "A" with assigned location "A" | each staff result beside its own staff row | not executed | DistanceCalculation.PositionalJoinMislabels | DistanceCalculation.CalculateMeaning |
